/** The feedback loop: simulator, runtime, classifier, policy and repository composed, one interval
    after another, and what the loop does to the battery. */
module ClosedLoop {
  import opened Basics
  import opened Observations
  import opened LatestState
  import opened Health
  import opened ControlPolicy
  import opened Classifier
  import opened Storage
  import opened Integrity
  import opened Runtime
  import opened Safety
  import opened Battery
  import opened Faults
  import opened Simulator

  datatype Tick = Tick(now: Time, fate: Fate)

  datatype Plant = Plant(sim: SimState, memory: Memory, db: Database)

  /** A command the battery carried out: the event and the charge it was decided from, and the battery's
      own charge before and after. */
  datatype Application = Application(
    eventID: string, command: Command, reportedSOC: real, before: real, after: real)

  datatype PlantEffect = PlantEffect(
    plant: Plant,
    applied: seq<Application>,
    records: seq<Record>,
    ending: Ending)

  /** Policy, agent and simulator are configured for the same device, battery and interval. */
  predicate Wired(agent: Agent, cfg: Config) {
    agent.deviceID == cfg.deviceID && agent.policy == Policy(cfg.batteryCapacityKWh, cfg.interval)
  }

  /** The policy the program builds from a valid simulator configuration, and the agent around it, are wired. */
  lemma ConfiguredAgentIsWired(cfg: Config, id: string, maxIntervals: int)
    requires cfg.Valid()
    ensures var policy := NewPolicy(Finite(cfg.batteryCapacityKWh), cfg.interval);
            policy.Ok? && Wired(Agent(id, cfg.deviceID, policy.value, maxIntervals), cfg)
  {
    hide ScheduleValid, Blank;
  }

  function CommandOf(sent: seq<Dispatch>): Option<Command> {
    if sent == [] then None else Some(sent[0].command)
  }

  function ReportedSOC(envelope: Option<Envelope>): real {
    if EventOf(envelope).Some? then EventOf(envelope).value.batterySOCPercent else 0.0
  }

  function PlantInterval(agent: Agent, hp: HealthPolicy, cfg: Config, nature: Nature, plant: Plant, tick: Tick)
    : PlantEffect
    requires agent.policy.Valid() && cfg.batteryCapacityKWh > 0.0
  {
    if tick.fate.Cancelled? then PlantEffect(plant, [], [], CleanStop)
    else
      var (sim, handover) := Next(cfg, nature, plant.sim);
      match handover
      case HandoverFailed => PlantEffect(Plant(sim, plant.memory, plant.db), [], [], Failed)
      case Handover(envelope) =>
        Sunk(cfg, plant.sim.batterySOCPercent, sim, envelope,
                Interval(agent, hp, plant.memory, plant.db, Step(envelope, tick.now, tick.fate)), tick.fate)
  }

  /** The sink's side of an interval: a command that arrives completes it. */
  function Sunk(
    cfg: Config, before: real, sim: SimState, envelope: Option<Envelope>, e: Effect, fate: Fate): PlantEffect
    requires cfg.batteryCapacityKWh > 0.0
  {
    if e.applies == 0 || fate.SinkFails? then PlantEffect(Plant(sim, e.memory, e.db), [], e.records, e.ending)
    else
      var command := CommandOf(e.sent);
      var (done, ok) := Completed(cfg, sim, command);
      if !ok then PlantEffect(Plant(done, e.memory, e.db), [], [], Failed)
      else
        PlantEffect(
          Plant(done, e.memory, e.db),
          if e.sent == [] then []
          else
            [Application(e.sent[0].eventID, e.sent[0].command, ReportedSOC(envelope), before, done.batterySOCPercent)],
          e.records,
          e.ending)
  }

  function PlantLoop(
    agent: Agent, hp: HealthPolicy, cfg: Config, nature: Nature, plant: Plant, ticks: seq<Tick>): PlantEffect
    requires agent.policy.Valid() && cfg.batteryCapacityKWh > 0.0
    decreases |ticks|
  {
    if ticks == [] then PlantEffect(plant, [], [], Running)
    else
      var first := PlantInterval(agent, hp, cfg, nature, plant, ticks[0]);
      if !first.ending.Running? then first
      else
        var rest := PlantLoop(agent, hp, cfg, nature, first.plant, ticks[1..]);
        PlantEffect(rest.plant, first.applied + rest.applied, first.records + rest.records, rest.ending)
  }

  /** How the program starts: the battery resumes from the charge last reported to storage. */
  function Restored(cfg: Config, db: Database): Config {
    var snapshot := SnapshotOf(db, cfg.deviceID);
    if cfg.deviceID in db.health && snapshot.state.deviceID != "" then
      cfg.(startingBatterySOCPercent := snapshot.state.batterySOCPercent)
    else cfg
  }

  function StartedPlant(cfg: Config, nature: Nature, db: Database): Plant {
    Plant(Initial(Restored(cfg, db), nature), RestoredMemory(db, cfg.deviceID), db)
  }

  // ---------------------------------------------------------------------------------------------
  // The schedules that keep the loop closed

  function InstantOf(cfg: Config, step: int): int {
    cfg.start.ns + (step - 1) * cfg.interval
  }

  /** The step's own sample is delivered under its own identity. */
  predicate HandsOver(cfg: Config, step: int) {
    var fault := FaultAt(cfg.faults, step);
    || fault.None?
    || (fault.value.kind.DelayFault? && InstantOf(cfg, step) + fault.value.delay != 0)
  }

  /** The name under which a step delivers its re-dated event, if storage can take it. */
  function RedatedName(cfg: Config, step: int): Option<string> {
    var fault := FaultAt(cfg.faults, step);
    if && fault.Some?
       && fault.value.kind.OutOfOrderFault?
       && !Padded(fault.value.eventID)
       && InstantOf(cfg, step) != 0
       && InstantOf(cfg, step) + fault.value.eventTimeOffset != 0
    then Some(fault.value.eventID) else None
  }

  predicate NamedBefore(cfg: Config, step: int) {
    exists j :: 1 <= j < step && RedatedName(cfg, j) == RedatedName(cfg, step)
  }

  /** A step that may run a command while its own sample stays unknown to storage: a re-dated event that
      arrives on time under a name of its own, or the redelivery of a sample nobody has seen. */
  predicate LeavesSampleStale(cfg: Config, step: int) {
    var fault := FaultAt(cfg.faults, step);
    && fault.Some?
    && match fault.value.kind
       case OutOfOrderFault =>
         && RedatedName(cfg, step).Some?
         && !NamedBefore(cfg, step)
         && -fault.value.eventTimeOffset <= cfg.interval
       case DuplicateFault => step >= 2 && !HandsOver(cfg, step - 1) && InstantOf(cfg, step - 1) != 0
       case _ => false
  }

  /** A redelivery right after a step that may leave its sample stale. */
  predicate Opens(cfg: Config, step: int) {
    && step >= 2
    && FaultAt(cfg.faults, step).Some?
    && FaultAt(cfg.faults, step).value.kind.DuplicateFault?
    && InstantOf(cfg, step - 1) != 0
    && InstantOf(cfg, step) != 0
    && LeavesSampleStale(cfg, step - 1)
  }

  ghost predicate SafeSchedule(cfg: Config) {
    forall step :: !Opens(cfg, step)
  }

  /** In particular, it is enough that no redelivery follows a redelivery or a re-dated event. */
  lemma SeparatedDuplicatesAreSafe(cfg: Config)
    requires forall step: nat ::
               step >= 2 && FaultAt(cfg.faults, step).Some? && FaultAt(cfg.faults, step).value.kind.DuplicateFault?
               ==> FaultAt(cfg.faults, step - 1).None?
                   || (!FaultAt(cfg.faults, step - 1).value.kind.DuplicateFault?
                       && !FaultAt(cfg.faults, step - 1).value.kind.OutOfOrderFault?)
    ensures SafeSchedule(cfg)
  {
  }

  // ---------------------------------------------------------------------------------------------
  // What is delivered

  function TelemetryOf(deviceID: string, sample: Sample): Telemetry {
    Telemetry(sample.eventID, sample.eventTime, deviceID, sample.pvPowerKW, sample.loadPowerKW,
              sample.batterySOCPercent, sample.priceEURPerKWh)
  }

  lemma FullEvent(deviceID: string, sample: Sample, receivedAt: Time)
    requires !Blank(deviceID) && SoundSample(sample) && receivedAt.utc && sample.eventTime.ns <= receivedAt.ns
    ensures EventOf(Some(FullEnvelope(deviceID, sample, receivedAt))) ==
            if receivedAt.IsZero() || sample.eventTime.IsZero() then None else Some(TelemetryOf(deviceID, sample))
  {
  }

  /** The event each kind of delivery carries. */
  lemma DeliveredEvent(cfg: Config, s: SimState, fault: Option<Fault>)
    requires cfg.Valid() && SoundSample(s.pending)
    requires fault.Some? ==> fault.value.Valid()
    requires fault.Some? && fault.value.kind.DuplicateFault?
             ==> SoundSample(s.prior) && s.prior.eventTime.ns <= s.pending.eventTime.ns
    ensures var event := EventOf(DeliveredEnvelope(cfg, s, fault));
            var at := s.pending.eventTime;
            && (event.Some? ==> event.value.deviceID == cfg.deviceID && event.value.eventTime.utc)
            && (fault.None? ==>
                  event == if at.IsZero() then None else Some(TelemetryOf(cfg.deviceID, s.pending)))
            && (fault.Some? && fault.value.kind.DelayFault? ==>
                  event == if at.IsZero() || at.ns + fault.value.delay == 0 then None
                           else Some(TelemetryOf(cfg.deviceID, s.pending)))
            && (fault.Some? && fault.value.kind.DuplicateFault? ==>
                  event == if at.IsZero() || s.prior.eventTime.IsZero() then None
                           else Some(TelemetryOf(cfg.deviceID, s.prior)))
            && (fault.Some? && fault.value.kind.OutOfOrderFault? ==>
                  && event ==
                     (if at.IsZero() || at.ns + fault.value.eventTimeOffset == 0 || Padded(fault.value.eventID)
                      then None
                      else Some(TelemetryOf(cfg.deviceID, ReDated(s.pending, fault.value))))
                  && DeliveredEnvelope(cfg, s, fault).value.receivedAt == at)
            && (event.Some? ==>
                  fault.None? || fault.value.kind.DelayFault? || fault.value.kind.DuplicateFault?
                  || fault.value.kind.OutOfOrderFault?)
  {
    var at := s.pending.eventTime;
    if fault.None? {
      FullEvent(cfg.deviceID, s.pending, at);
    } else {
      var f := fault.value;
      match f.kind {
        case DelayFault => FullEvent(cfg.deviceID, s.pending, at.Add(f.delay));
        case DuplicateFault => FullEvent(cfg.deviceID, s.prior, at);
        case InvalidMeasurementFault => RejectedEverywhere(RawOf(cfg.deviceID, s.pending), f.measurement, f.value);
        case MissingValueFault => OmittedIsRejected(RawOf(cfg.deviceID, s.pending), f.measurement);
        case OutOfOrderFault => ReDatedEvent(cfg, s, f);
        case _ =>
      }
    }
    hide EventOf, Rejects, ScheduleValid, SoundSample, Blank;
  }

  function ReDated(sample: Sample, f: Fault): Sample {
    sample.(eventID := f.eventID, eventTime := sample.eventTime.Add(f.eventTimeOffset))
  }

  lemma ReDatedEvent(cfg: Config, s: SimState, f: Fault)
    requires f.kind.OutOfOrderFault? && f.Valid() && SoundSample(s.pending) && !Blank(cfg.deviceID)
    ensures var at := s.pending.eventTime;
            && EventOf(DeliveredEnvelope(cfg, s, Some(f))) ==
               (if at.IsZero() || at.ns + f.eventTimeOffset == 0 || Padded(f.eventID) then None
                else Some(TelemetryOf(cfg.deviceID, ReDated(s.pending, f))))
            && DeliveredEnvelope(cfg, s, Some(f)).value.receivedAt == at
  {
    if !Padded(f.eventID) {
      FullEvent(cfg.deviceID, ReDated(s.pending, f), s.pending.eventTime);
    }
  }

  // ---------------------------------------------------------------------------------------------
  // Between intervals

  /** The simulator between two intervals: its clock and its memory of the last sample are a function
      of the step. */
  predicate Poised(cfg: Config, nature: Nature, s: SimState) {
    && !s.pendingTelemetry
    && OnScale(s.batterySOCPercent)
    && SoundFactors(s)
    && s.currentTime == Time(InstantOf(cfg, s.step + 1), true)
    && (s.step > 0 ==> IsSampleOf(cfg, nature, s.prior, s.step))
  }

  predicate IsSampleOf(cfg: Config, nature: Nature, sample: Sample, step: int) {
    && SoundSample(sample)
    && sample.eventTime == Time(InstantOf(cfg, step), true)
    && sample.eventID == nature.eventID(cfg.deviceID, InstantOf(cfg, step))
  }

  lemma InitiallyPoised(cfg: Config, nature: Nature)
    requires cfg.Valid() && nature.Lawful()
    ensures Poised(cfg, nature, Initial(cfg, nature))
    ensures Initial(cfg, nature).step == 0
    ensures Initial(cfg, nature).batterySOCPercent == cfg.startingBatterySOCPercent
  {
    FactorsAreSound(nature, SimState(
      Time(cfg.start.ns, true), cfg.startingBatterySOCPercent, 0, ZERO_TIME, 0.0, 0.0, 0.0, false, 0,
      ZERO_SAMPLE, ZERO_SAMPLE));
  }

  /** The simulator always has an observation to hand out between intervals. */
  lemma HandsOut(cfg: Config, nature: Nature, s: SimState)
    requires cfg.Valid() && nature.Lawful() && Poised(cfg, nature, s)
    ensures var next := Advanced(cfg, nature, s);
            var fault := FaultAt(cfg.faults, s.step + 1);
            && Next(cfg, nature, s) == (next, Handover(DeliveredEnvelope(cfg, next, fault)))
            && next.step == s.step + 1
            && next.pendingTelemetry
            && IsSampleOf(cfg, nature, next.pending, s.step + 1)
            && next.pending.batterySOCPercent == s.batterySOCPercent == next.batterySOCPercent
            && next.prior == s.prior
            && next.currentTime == s.currentTime
            && SoundFactors(next)
            && (fault.Some? ==> fault.value.Valid())
            && (fault.Some? && fault.value.kind.DuplicateFault? ==> s.step > 0)
  {
    FactorsAreSound(nature, s);
    var day := if s.currentTime.ns < s.dayEnd.ns then s else StartedDay(nature, s);
    NaturalSampleIsSound(cfg, nature, day);
    FaultAtFinds(cfg.faults, s.step + 1);
    hide PVPowerKW, LoadPowerKW, PriceEURPerKWh, Rejects, Blank, DeliveredEnvelope;
  }

  /** What delivering one observation to the runtime can mean for the command and for storage. */
  lemma IntervalDispatch(agent: Agent, hp: HealthPolicy, memory: Memory, db: Database, step: Step)
    requires agent.policy.Valid() && Intact(db) && Refines(memory, db, agent.deviceID)
    ensures var e := Interval(agent, hp, memory, db, step);
            var event := EventOf(step.envelope);
            && Intact(e.db) && Refines(e.memory, e.db, agent.deviceID)
            && e.applies <= 1
            && |e.sent| <= 1
            && (e.ending.Running? ==> e.applies == 1)
            && (e.sent != [] ==> e.applies == 1)
            && (forall id :: id in db.telemetry ==> id in e.db.telemetry)
            && (e.applies == 1 && event.Some? ==> event.value.eventID in e.db.telemetry)
            && (e.db.latest == db.latest
                || (NewRow(agent, db, event, e.db) && Supersedes(event.value, memory.state)))
            && (event.None? || event.value.eventID in db.telemetry ==>
                  e.db.telemetry == db.telemetry && e.db.latest == db.latest)
            && (e.sent != [] ==>
                  && event.Some?
                  && !Late(agent, step.envelope)
                  && event.value.eventID !in db.telemetry
                  && NewRow(agent, db, event, e.db)
                  && Supersedes(event.value, memory.state)
                  && e.sent[0] == Dispatch(event.value.eventID, agent.policy.Decide(StateOf(event.value))))
  {
    var p := Process(agent, hp, memory, db, step.envelope, step.now, FailureOf(step.fate));
    hide *;
    IntervalStaysSafe(agent, hp, memory, db, step);
    ProcessMeaning(agent, hp, memory, db, step.envelope, step.now, FailureOf(step.fate));
    IntervalCases(agent, hp, memory, db, step);
    DispatchCases(agent, memory, db, p, step);
  }

  lemma DispatchCases(agent: Agent, memory: Memory, db: Database, p: Processing, step: Step)
    requires agent.policy.Valid()
    requires p.processed.Unprocessed? ==> p.db == db && !p.processed.ending.Running?
    requires p.processed.Committed? ==>
               && p.processed.outcome.telemetry == EventOf(step.envelope)
               && (p.processed.status.CommitDuplicate?
                   <==> EventOf(step.envelope).Some? && EventOf(step.envelope).value.eventID in db.telemetry)
               && (p.processed.status.CommitDuplicate? ==> p.db == db && p.processed.outcome.command.None?)
               && (p.processed.status.CommitStored? ==>
                     StoresObservation(agent, memory.state, db, step.envelope, step.now, p.db, p.processed.outcome))
    ensures forall ending :: var e := NoEffect(memory, db, ending);
              e.applies == 0 && e.sent == [] && e.db == db
    ensures var e := Delivered(agent, db, p, step);
            var event := EventOf(step.envelope);
            && e.db == p.db
            && e.applies <= 1
            && |e.sent| <= 1
            && (e.ending.Running? ==> e.applies == 1)
            && (e.sent != [] ==> e.applies == 1)
            && (forall id :: id in db.telemetry ==> id in e.db.telemetry)
            && (e.applies == 1 && event.Some? ==> event.value.eventID in e.db.telemetry)
            && (e.db.latest == db.latest
                || (NewRow(agent, db, event, e.db) && Supersedes(event.value, memory.state)))
            && (event.None? || event.value.eventID in db.telemetry ==>
                  e.db.telemetry == db.telemetry && e.db.latest == db.latest)
            && (e.sent != [] ==>
                  && event.Some?
                  && !Late(agent, step.envelope)
                  && event.value.eventID !in db.telemetry
                  && NewRow(agent, db, event, e.db)
                  && Supersedes(event.value, memory.state)
                  && e.sent[0] == Dispatch(event.value.eventID, agent.policy.Decide(StateOf(event.value))))
  {
    hide EventOf, Late, Policy.Decide, BuildRecord, RecordedBy, Supersedes;
  }

  /** The interval's event is new to storage and has become the device's latest row. */
  predicate NewRow(agent: Agent, before: Database, event: Option<Telemetry>, after: Database) {
    && event.Some?
    && event.value.eventID !in before.telemetry
    && event.value.eventID in after.telemetry
    && after.latest == before.latest[agent.deviceID := StateOf(event.value)]
  }

  // ---------------------------------------------------------------------------------------------
  // One interval of the plant

  /** What the last step left between the simulator and storage: its sample still reports the present
      charge, or is known, or the step was one that leaves samples stale; and a sample handed over
      under its own identity is known, unless it carries no usable time. Every re-dated event so far that
      storage can take is known as well. */
  predicate PriorKnown(cfg: Config, s: SimState, db: Database) {
    s.step > 0 ==>
      && (s.prior.batterySOCPercent == s.batterySOCPercent
          || s.prior.eventID in db.telemetry
          || LeavesSampleStale(cfg, s.step))
      && (HandsOver(cfg, s.step) ==> s.prior.eventID in db.telemetry || s.prior.eventTime.IsZero())
      && RedatedKnown(cfg, s.step, db)
  }

  predicate RedatedKnown(cfg: Config, step: int, db: Database) {
    forall j :: 1 <= j <= step && RedatedName(cfg, j).Some? ==> RedatedName(cfg, j).value in db.telemetry
  }

  predicate PlantSound(agent: Agent, cfg: Config, nature: Nature, plant: Plant) {
    && Poised(cfg, nature, plant.sim)
    && Intact(plant.db)
    && Refines(plant.memory, plant.db, agent.deviceID)
  }

  /** A command carried out on the charge it was decided from. */
  predicate Faithful(agent: Agent, a: Application) {
    var capacity := agent.policy.batteryCapacityKWh;
    && a.reportedSOC == a.before
    && OnScale(a.before)
    && Min(a.before, MINIMUM_DISCHARGE_SOC_PERCENT) <= a.after <= MAXIMUM_BATTERY_SOC_PERCENT
    && Clipped(agent, a) >= 0.0
    && (Clipped(agent, a) > 0.0 ==> a.command.decision.Charge? && a.after == MAXIMUM_BATTERY_SOC_PERCENT)
  }

  /** The signed energy a command asks the battery to take in. */
  function Commanded(agent: Agent, a: Application): real {
    TakenInKWh(a.command, agent.policy.interval)
  }

  /** The commanded energy that did not end up in the battery. */
  function Clipped(agent: Agent, a: Application): real {
    EnergyKWh(a.before, agent.policy.batteryCapacityKWh) + Commanded(agent, a)
    - EnergyKWh(a.after, agent.policy.batteryCapacityKWh)
  }

  /** The one place the loop can come open: a redelivered sample that storage does not know is only
      decided on when the battery has not moved since it was taken. */
  lemma EventReportsPresentCharge(cfg: Config, nature: Nature, s: SimState, db: Database)
    requires cfg.Valid() && nature.Lawful() && SafeSchedule(cfg)
    requires Poised(cfg, nature, s) && PriorKnown(cfg, s, db)
    ensures var next := Advanced(cfg, nature, s);
            var event := EventOf(DeliveredEnvelope(cfg, next, FaultAt(cfg.faults, s.step + 1)));
            event.Some? && event.value.eventID !in db.telemetry ==>
              event.value.batterySOCPercent == s.batterySOCPercent
  {
    var next := Advanced(cfg, nature, s);
    var fault := FaultAt(cfg.faults, s.step + 1);
    HandsOut(cfg, nature, s);
    if fault.Some? && fault.value.kind.DuplicateFault? {
      assert s.prior.eventTime.ns == InstantOf(cfg, s.step) <= InstantOf(cfg, s.step + 1) by {
        InstantsAdvance(cfg, s.step);
      }
      assert !Opens(cfg, s.step + 1);
    }
    DeliveredEvent(cfg, next, fault);
    hide EventOf, DeliveredEnvelope, Advanced, SoundSample, LeavesSampleStale, HandsOver, FaultAt;
  }

  lemma InstantsAdvance(cfg: Config, step: int)
    requires cfg.interval > 0
    ensures InstantOf(cfg, step + 1) == InstantOf(cfg, step) + cfg.interval
  {
    assert step * cfg.interval == (step - 1) * cfg.interval + cfg.interval;
  }

  lemma InstantsDiffer(cfg: Config, i: int, j: int)
    requires cfg.interval > 0 && i < j
    ensures InstantOf(cfg, i) < InstantOf(cfg, j)
  {
    assert (j - i) * cfg.interval > 0;
    assert (j - 1) * cfg.interval == (i - 1) * cfg.interval + (j - i) * cfg.interval;
  }

  function PowerOf(command: Option<Command>): real {
    if command.Some? then CommandBatteryPowerKW(command.value) else 0.0
  }

  /** Completing a handed-out interval always succeeds for a valid command or none. */
  lemma CompletionSucceeds(cfg: Config, nature: Nature, next: SimState, step: nat, command: Option<Command>)
    requires cfg.Valid()
    requires next.pendingTelemetry && next.step == step + 1 && SoundFactors(next)
    requires IsSampleOf(cfg, nature, next.pending, step + 1)
    requires OnScale(next.batterySOCPercent) && next.currentTime == Time(InstantOf(cfg, step + 1), true)
    requires command.Some? ==> command.value.Valid()
    ensures var (done, ok) := Completed(cfg, next, command);
            && ok
            && Poised(cfg, nature, done)
            && done.step == step + 1
            && done.prior == next.pending
            && done.batterySOCPercent ==
               NextBatterySOCPercent(next.batterySOCPercent, PowerOf(command), cfg.interval, cfg.batteryCapacityKWh)
            && (command.None? ==> done.batterySOCPercent == next.batterySOCPercent)
  {
    NextEnergy(next.batterySOCPercent, PowerOf(command), cfg.interval, cfg.batteryCapacityKWh);
    if command.None? {
      IdleHolds(next.batterySOCPercent, cfg.interval, cfg.batteryCapacityKWh);
    }
    InstantsAdvance(cfg, step + 1);
    hide NextBatterySOCPercent, EnergyKWh, SoundSample, Hours;
  }

  lemma PolicyIsValid(agent: Agent, cfg: Config)
    requires cfg.Valid() && Wired(agent, cfg)
    ensures agent.policy.Valid() && cfg.batteryCapacityKWh > 0.0 && !Blank(agent.deviceID)
    ensures agent.policy.interval == cfg.interval && agent.policy.batteryCapacityKWh == cfg.batteryCapacityKWh
    ensures agent.deviceID == cfg.deviceID
  {
  }

  /** One interval of a plant: the simulator is always ready, the sink never refuses, and the plant is
      sound again afterwards, one step further. */
  predicate Advances(
    agent: Agent, hp: HealthPolicy, cfg: Config, nature: Nature, plant: Plant, tick: Tick, envelope: Option<Envelope>)
    requires agent.policy.Valid() && cfg.batteryCapacityKWh > 0.0
  {
    var e := Interval(agent, hp, plant.memory, plant.db, Step(envelope, tick.now, tick.fate));
    var after := PlantInterval(agent, hp, cfg, nature, plant, tick);
    var next := Advanced(cfg, nature, plant.sim);
    && Next(cfg, nature, plant.sim) == (next, Handover(envelope))
    && (tick.fate.Cancelled? ==> after == PlantEffect(plant, [], [], CleanStop))
    && (!tick.fate.Cancelled? ==>
          && after.ending == e.ending
          && after.plant.db == e.db
          && after.plant.memory == e.memory
          && after.records == e.records
          && (e.applies == 0 || tick.fate.SinkFails? ==> after.plant.sim == next && after.applied == [])
          && (e.applies != 0 && !tick.fate.SinkFails? ==>
                && after.plant.sim == Completed(cfg, next, CommandOf(e.sent)).0
                && after.plant.sim.batterySOCPercent ==
                   NextBatterySOCPercent(plant.sim.batterySOCPercent, PowerOf(CommandOf(e.sent)), cfg.interval,
                                         cfg.batteryCapacityKWh)
                && Poised(cfg, nature, after.plant.sim)
                && after.plant.sim.step == plant.sim.step + 1
                && after.plant.sim.prior == next.pending
                && after.applied ==
                   (if e.sent == [] then []
                    else [Application(e.sent[0].eventID, e.sent[0].command, ReportedSOC(envelope),
                                      plant.sim.batterySOCPercent, after.plant.sim.batterySOCPercent)])
                && (e.sent == [] ==> after.plant.sim.batterySOCPercent == plant.sim.batterySOCPercent)))
  }

  lemma PlantAdvances(agent: Agent, hp: HealthPolicy, cfg: Config, nature: Nature, plant: Plant, tick: Tick)
    requires cfg.Valid() && nature.Lawful() && Wired(agent, cfg)
    requires PlantSound(agent, cfg, nature, plant)
    ensures agent.policy.Valid()
    ensures Advances(agent, hp, cfg, nature, plant, tick, HandedEnvelope(cfg, nature, plant.sim))
  {
    hide *;
    PolicyIsValid(agent, cfg);
    SoundParts(agent, cfg, nature, plant);
    var next := Advanced(cfg, nature, plant.sim);
    var envelope := HandedEnvelope(cfg, nature, plant.sim);
    var step := Step(envelope, tick.now, tick.fate);
    var e := Interval(agent, hp, plant.memory, plant.db, step);
    HandsOut(cfg, nature, plant.sim);
    HandedMeans(cfg, nature, plant.sim);
    IntervalDispatch(agent, hp, plant.memory, plant.db, step);
    CommandIsValid(agent, e, envelope);
    CompletionSucceeds(cfg, nature, next, plant.sim.step, CommandOf(e.sent));
    PlantUnfolds(agent, hp, cfg, nature, plant, tick, envelope);
  }

  lemma SoundParts(agent: Agent, cfg: Config, nature: Nature, plant: Plant)
    requires PlantSound(agent, cfg, nature, plant)
    ensures Poised(cfg, nature, plant.sim) && Intact(plant.db) && Refines(plant.memory, plant.db, agent.deviceID)
    ensures OnScale(plant.sim.batterySOCPercent) && !plant.sim.pendingTelemetry
    ensures plant.sim.currentTime == Time(InstantOf(cfg, plant.sim.step + 1), true)
  {
    hide Intact, Refines, InstantOf;
  }

  lemma HandedMeans(cfg: Config, nature: Nature, s: SimState)
    ensures HandedEnvelope(cfg, nature, s)
            == DeliveredEnvelope(cfg, Advanced(cfg, nature, s), FaultAt(cfg.faults, s.step + 1))
  {
    hide DeliveredEnvelope, Advanced;
  }

  lemma CommandIsValid(agent: Agent, e: Effect, envelope: Option<Envelope>)
    requires agent.policy.Valid()
    requires e.sent != [] ==>
               EventOf(envelope).Some? && e.sent[0].command == agent.policy.Decide(StateOf(EventOf(envelope).value))
    ensures CommandOf(e.sent).Some? ==> CommandOf(e.sent).value.Valid()
    ensures CommandOf(e.sent) == if e.sent == [] then None else Some(e.sent[0].command)
  {
    if e.sent != [] {
      DecidedCommandIsValid(agent.policy, StateOf(EventOf(envelope).value));
    }
    hide EventOf;
  }

  lemma PlantUnfolds(
    agent: Agent, hp: HealthPolicy, cfg: Config, nature: Nature, plant: Plant, tick: Tick, envelope: Option<Envelope>)
    requires agent.policy.Valid() && cfg.batteryCapacityKWh > 0.0
    requires Next(cfg, nature, plant.sim) == (Advanced(cfg, nature, plant.sim), Handover(envelope))
    requires var e := Interval(agent, hp, plant.memory, plant.db, Step(envelope, tick.now, tick.fate));
             var (done, ok) := Completed(cfg, Advanced(cfg, nature, plant.sim), CommandOf(e.sent));
             && ok
             && Poised(cfg, nature, done)
             && done.step == plant.sim.step + 1
             && done.prior == Advanced(cfg, nature, plant.sim).pending
             && done.batterySOCPercent ==
                NextBatterySOCPercent(plant.sim.batterySOCPercent, PowerOf(CommandOf(e.sent)), cfg.interval,
                                      cfg.batteryCapacityKWh)
             && (CommandOf(e.sent).None? ==> done.batterySOCPercent == plant.sim.batterySOCPercent)
    ensures Advances(agent, hp, cfg, nature, plant, tick, envelope)
  {
    hide Interval, Advanced, Next, Completed, Poised, EventOf, NextBatterySOCPercent;
  }

  lemma SoundFrom(agent: Agent, cfg: Config, nature: Nature, plant: Plant)
    requires Poised(cfg, nature, plant.sim) && Intact(plant.db) && Refines(plant.memory, plant.db, agent.deviceID)
    ensures PlantSound(agent, cfg, nature, plant)
  {
    hide Poised, Intact, Refines;
  }

  /** On any schedule, a plant whose run goes on is sound again, one step further. */
  lemma PlantStaysSound(agent: Agent, hp: HealthPolicy, cfg: Config, nature: Nature, plant: Plant, tick: Tick)
    requires cfg.Valid() && nature.Lawful() && Wired(agent, cfg)
    requires PlantSound(agent, cfg, nature, plant)
    ensures agent.policy.Valid()
    ensures var e := PlantInterval(agent, hp, cfg, nature, plant, tick);
            e.ending.Running? ==> PlantSound(agent, cfg, nature, e.plant) && e.plant.sim.step == plant.sim.step + 1
  {
    hide *;
    var envelope := HandedEnvelope(cfg, nature, plant.sim);
    var step := Step(envelope, tick.now, tick.fate);
    PolicyIsValid(agent, cfg);
    SoundParts(agent, cfg, nature, plant);
    PlantAdvances(agent, hp, cfg, nature, plant, tick);
    IntervalDispatch(agent, hp, plant.memory, plant.db, step);
    SinkRefusal(agent, hp, plant.memory, plant.db, step);
    AdvancesMeans(agent, hp, cfg, nature, plant, tick, envelope);
    var after := PlantInterval(agent, hp, cfg, nature, plant, tick);
    if after.ending.Running? {
      SoundFrom(agent, cfg, nature, after.plant);
    }
  }

  lemma SinkRefusal(agent: Agent, hp: HealthPolicy, memory: Memory, db: Database, step: Step)
    requires agent.policy.Valid() && Intact(db) && Refines(memory, db, agent.deviceID)
    ensures step.fate.SinkFails? || step.fate.CrashAfterCommit? ==>
              !Interval(agent, hp, memory, db, step).ending.Running?
  {
    var p := Process(agent, hp, memory, db, step.envelope, step.now, FailureOf(step.fate));
    IntervalCases(agent, hp, memory, db, step);
    ProcessEnds(agent, hp, memory, db, step.envelope, step.now, FailureOf(step.fate));
    hide Interval, Process, BuildRecord, RecordedBy;
  }

  lemma ProcessEnds(
    agent: Agent, hp: HealthPolicy, memory: Memory, db: Database, envelope: Option<Envelope>, now: Time,
    failure: Failure)
    requires agent.policy.Valid()
    ensures var p := Process(agent, hp, memory, db, envelope, now, failure);
            p.processed.Unprocessed? ==> !p.processed.ending.Running?
  {
    hide Classify, Commit, Proposal;
  }

  /** What the parts of an interval that reaches the sink come to. */
  lemma AdvancesMeans(
    agent: Agent, hp: HealthPolicy, cfg: Config, nature: Nature, plant: Plant, tick: Tick, envelope: Option<Envelope>)
    requires agent.policy.Valid() && cfg.batteryCapacityKWh > 0.0
    requires Advances(agent, hp, cfg, nature, plant, tick, envelope)
    ensures var e := Interval(agent, hp, plant.memory, plant.db, Step(envelope, tick.now, tick.fate));
            var after := PlantInterval(agent, hp, cfg, nature, plant, tick);
            var soc := plant.sim.batterySOCPercent;
            && (tick.fate.Cancelled? || e.applies == 0 || tick.fate.SinkFails? ==>
                  after.applied == [] && after.plant.sim.batterySOCPercent == soc)
            && (tick.fate.Cancelled? ==> after.plant == plant && !after.ending.Running?)
            && (!tick.fate.Cancelled? ==>
                  && after.ending == e.ending
                  && after.plant.db == e.db
                  && after.plant.memory == e.memory
                  && after.records == e.records)
            && (!tick.fate.Cancelled? && e.applies != 0 && !tick.fate.SinkFails? ==>
                  && Poised(cfg, nature, after.plant.sim)
                  && after.plant.sim == Completed(cfg, Advanced(cfg, nature, plant.sim), CommandOf(e.sent)).0
                  && after.plant.sim.step == plant.sim.step + 1
                  && after.plant.sim.prior == Advanced(cfg, nature, plant.sim).pending
                  && (e.sent == [] ==> after.applied == [] && after.plant.sim.batterySOCPercent == soc)
                  && (e.sent != [] ==>
                        && after.plant.sim.batterySOCPercent ==
                           NextBatterySOCPercent(soc, CommandBatteryPowerKW(e.sent[0].command), cfg.interval,
                                                 cfg.batteryCapacityKWh)
                        && after.applied ==
                           [Application(e.sent[0].eventID, e.sent[0].command, ReportedSOC(envelope), soc,
                                        after.plant.sim.batterySOCPercent)]))
  {
    AdvancedKeepsCharge(cfg, nature, plant.sim);
    hide Interval, PlantInterval, Next, Advanced, Completed, Poised, EventOf, NextBatterySOCPercent, ReportedSOC,
      CommandBatteryPowerKW;
  }

  lemma AdvancedKeepsCharge(cfg: Config, nature: Nature, s: SimState)
    ensures Advanced(cfg, nature, s).batterySOCPercent == s.batterySOCPercent
  {
    hide NaturalSample;
  }

  function HandedEnvelope(cfg: Config, nature: Nature, s: SimState): Option<Envelope> {
    DeliveredEnvelope(cfg, Advanced(cfg, nature, s), FaultAt(cfg.faults, s.step + 1))
  }

  // ---------------------------------------------------------------------------------------------
  // The reserve

  predicate Follows(from: real, applied: seq<Application>, i: nat)
    requires i < |applied|
  {
    applied[i].before == (if i == 0 then from else applied[i - 1].after)
  }

  /** The applications of a stretch: each faithful, each starting from the charge the one before left. */
  predicate Chained(agent: Agent, from: real, applied: seq<Application>, to: real) {
    && (forall i :: 0 <= i < |applied| ==> Faithful(agent, applied[i]))
    && (forall i :: 0 <= i < |applied| ==> Follows(from, applied, i))
    && to == (if applied == [] then from else applied[|applied| - 1].after)
  }

  lemma ChainedOnce(
    agent: Agent, envelope: Option<Envelope>, eventID: string, command: Command, soc: real, after: real)
    requires agent.policy.Valid() && OnScale(soc)
    requires EventOf(envelope).Some? && EventOf(envelope).value.batterySOCPercent == soc
    requires command == agent.policy.Decide(StateOf(EventOf(envelope).value))
    requires after == NextBatterySOCPercent(
                        soc, CommandBatteryPowerKW(command), agent.policy.interval, agent.policy.batteryCapacityKWh)
    ensures Chained(agent, soc, [Application(eventID, command, ReportedSOC(envelope), soc, after)], after)
  {
    var a := Application(eventID, command, ReportedSOC(envelope), soc, after);
    var state := StateOf(EventOf(envelope).value);
    assert state.batterySOCPercent == soc && a.reportedSOC == soc;
    hide EventOf, EnergyKWh, NextBatterySOCPercent, Hours, CommandBatteryPowerKW, Min;
    FaithfulDecision(agent, a, state);
    assert Follows(soc, [a], 0);
  }

  lemma FaithfulDecision(agent: Agent, a: Application, state: State)
    requires agent.policy.Valid() && OnScale(a.before)
    requires state.batterySOCPercent == a.before == a.reportedSOC
    requires a.command == agent.policy.Decide(state)
    requires a.after == NextBatterySOCPercent(a.before, CommandBatteryPowerKW(a.command), agent.policy.interval,
                                              agent.policy.batteryCapacityKWh)
    ensures Faithful(agent, a)
  {
    hide EnergyKWh, NextBatterySOCPercent, Hours, CommandBatteryPowerKW, Min;
    DecidedCommandKeepsReserve(agent.policy, state);
  }

  lemma NoneChained(agent: Agent, soc: real)
    ensures Chained(agent, soc, [], soc)
  {
  }

  /** The present interval's sample is known afterwards, or its charge still holds, or the step is one
      that leaves samples stale. */
  lemma SampleKnownAfter(
    agent: Agent, cfg: Config, nature: Nature, s: SimState, next: SimState, before: Database, done: SimState,
    after: Database, sent: bool)
    requires cfg.Valid() && agent.policy.interval == cfg.interval
    requires Poised(cfg, nature, s) && IsSampleOf(cfg, nature, next.pending, s.step + 1)
    requires next.prior == s.prior && next.pending.batterySOCPercent == s.batterySOCPercent
    requires done.step == s.step + 1 && done.prior == next.pending
    requires PriorKnown(cfg, s, before)
    requires FaultAt(cfg.faults, s.step + 1).Some? ==> FaultAt(cfg.faults, s.step + 1).value.Valid()
    requires FaultAt(cfg.faults, s.step + 1).Some? && FaultAt(cfg.faults, s.step + 1).value.kind.DuplicateFault?
             ==> s.step > 0
    requires !sent ==> done.batterySOCPercent == s.batterySOCPercent
    requires forall id :: id in before.telemetry ==> id in after.telemetry
    requires var envelope := DeliveredEnvelope(cfg, next, FaultAt(cfg.faults, s.step + 1));
             && (EventOf(envelope).Some? ==> EventOf(envelope).value.eventID in after.telemetry)
             && (sent ==> EventOf(envelope).Some? && !Late(agent, envelope)
                          && EventOf(envelope).value.eventID !in before.telemetry)
    ensures PriorKnown(cfg, done, after)
  {
    var fault := FaultAt(cfg.faults, s.step + 1);
    var envelope := DeliveredEnvelope(cfg, next, fault);
    InstantsAdvance(cfg, s.step);
    DeliveredEvent(cfg, next, fault);
    if sent && fault.Some? && fault.value.kind.OutOfOrderFault? {
      NotLateOffset(agent, cfg, envelope, next.pending.eventTime, fault.value.eventTimeOffset);
    }
    hide EventOf, DeliveredEnvelope, FaultAt, SoundSample, InstantOf, Late;
  }

  lemma NotLateOffset(agent: Agent, cfg: Config, envelope: Option<Envelope>, at: Time, offset: int)
    requires cfg.Valid() && agent.policy.interval == cfg.interval
    requires EventOf(envelope).Some? && !Late(agent, envelope)
    requires envelope.value.receivedAt == at && EventOf(envelope).value.eventTime == at.Add(offset)
    ensures -offset <= cfg.interval
  {
    IntervalFitsDay(cfg);
    hide EventOf;
  }

  lemma IntervalFitsDay(cfg: Config)
    requires cfg.Valid()
    ensures cfg.interval <= SIMULATION_DURATION < MAX_INT64
  {
    var n := SIMULATION_DURATION / cfg.interval;
    assert SIMULATION_DURATION == cfg.interval * n;
    assert n >= 1;
  }

  /** On any schedule, what is known of the last sample stays known. */
  lemma PriorStaysKnown(agent: Agent, hp: HealthPolicy, cfg: Config, nature: Nature, plant: Plant, tick: Tick)
    requires cfg.Valid() && nature.Lawful() && Wired(agent, cfg)
    requires PlantSound(agent, cfg, nature, plant) && PriorKnown(cfg, plant.sim, plant.db)
    ensures agent.policy.Valid()
    ensures var e := PlantInterval(agent, hp, cfg, nature, plant, tick);
            e.ending.Running? ==> PriorKnown(cfg, e.plant.sim, e.plant.db)
  {
    hide *;
    PolicyIsValid(agent, cfg);
    var s := plant.sim;
    var next := Advanced(cfg, nature, s);
    var envelope := HandedEnvelope(cfg, nature, s);
    var step := Step(envelope, tick.now, tick.fate);
    var e := Interval(agent, hp, plant.memory, plant.db, step);
    var after := PlantInterval(agent, hp, cfg, nature, plant, tick);
    SoundParts(agent, cfg, nature, plant);
    HandsOut(cfg, nature, s);
    HandedMeans(cfg, nature, s);
    IntervalDispatch(agent, hp, plant.memory, plant.db, step);
    SinkRefusal(agent, hp, plant.memory, plant.db, step);
    PlantAdvances(agent, hp, cfg, nature, plant, tick);
    AdvancesMeans(agent, hp, cfg, nature, plant, tick, envelope);
    if after.ending.Running? {
      SampleKnownAfter(agent, cfg, nature, s, next, plant.db, after.plant.sim, e.db, e.sent != []);
    }
  }

  /** One interval keeps the loop closed. */
  lemma PlantIntervalKeepsReserve(
    agent: Agent, hp: HealthPolicy, cfg: Config, nature: Nature, plant: Plant, tick: Tick)
    requires cfg.Valid() && nature.Lawful() && Wired(agent, cfg) && SafeSchedule(cfg)
    requires PlantSound(agent, cfg, nature, plant) && PriorKnown(cfg, plant.sim, plant.db)
    ensures agent.policy.Valid()
    ensures var e := PlantInterval(agent, hp, cfg, nature, plant, tick);
            && Chained(agent, plant.sim.batterySOCPercent, e.applied, e.plant.sim.batterySOCPercent)
            && (e.ending.Running? ==>
                  && PlantSound(agent, cfg, nature, e.plant)
                  && e.plant.sim.step == plant.sim.step + 1
                  && PriorKnown(cfg, e.plant.sim, e.plant.db))
  {
    hide *;
    PolicyIsValid(agent, cfg);
    var s := plant.sim;
    var envelope := HandedEnvelope(cfg, nature, s);
    var step := Step(envelope, tick.now, tick.fate);
    var e := Interval(agent, hp, plant.memory, plant.db, step);
    var after := PlantInterval(agent, hp, cfg, nature, plant, tick);
    SoundParts(agent, cfg, nature, plant);
    HandedMeans(cfg, nature, s);
    IntervalDispatch(agent, hp, plant.memory, plant.db, step);
    PlantAdvances(agent, hp, cfg, nature, plant, tick);
    AdvancesMeans(agent, hp, cfg, nature, plant, tick, envelope);
    PlantStaysSound(agent, hp, cfg, nature, plant, tick);
    EventReportsPresentCharge(cfg, nature, s, plant.db);
    NoneChained(agent, s.batterySOCPercent);
    if after.applied != [] {
      ChainedOnce(agent, envelope, e.sent[0].eventID, e.sent[0].command, s.batterySOCPercent,
                  after.plant.sim.batterySOCPercent);
    }
    PriorStaysKnown(agent, hp, cfg, nature, plant, tick);
  }

  lemma ChainedAppend(agent: Agent, from: real, first: seq<Application>, mid: real, rest: seq<Application>, to: real)
    requires Chained(agent, from, first, mid) && Chained(agent, mid, rest, to)
    ensures Chained(agent, from, first + rest, to)
  {
    var all := first + rest;
    forall i | 0 <= i < |all|
      ensures Faithful(agent, all[i])
      ensures Follows(from, all, i)
    {
      if i < |first| {
        assert all[i] == first[i] && Follows(from, first, i);
      } else {
        assert all[i] == rest[i - |first|] && Follows(mid, rest, i - |first|);
      }
    }
    hide Faithful;
  }

  /** The closed loop from any sound plant, through any number of intervals and whatever fails: every
      command carried out was decided from the charge the battery had, and the chain of charges is
      unbroken from the first to the last. */
  lemma {:induction false} LoopStaysClosed(
    agent: Agent, hp: HealthPolicy, cfg: Config, nature: Nature, plant: Plant, ticks: seq<Tick>)
    requires cfg.Valid() && nature.Lawful() && Wired(agent, cfg) && SafeSchedule(cfg)
    requires PlantSound(agent, cfg, nature, plant) && PriorKnown(cfg, plant.sim, plant.db)
    ensures agent.policy.Valid()
    ensures var e := PlantLoop(agent, hp, cfg, nature, plant, ticks);
            Chained(agent, plant.sim.batterySOCPercent, e.applied, e.plant.sim.batterySOCPercent)
    decreases |ticks|
  {
    hide *;
    PolicyIsValid(agent, cfg);
    NoneChained(agent, plant.sim.batterySOCPercent);
    PlantLoopUnfolds(agent, hp, cfg, nature, plant, ticks);
    if ticks != [] {
      var first := PlantInterval(agent, hp, cfg, nature, plant, ticks[0]);
      PlantIntervalKeepsReserve(agent, hp, cfg, nature, plant, ticks[0]);
      if first.ending.Running? {
        var rest := PlantLoop(agent, hp, cfg, nature, first.plant, ticks[1..]);
        LoopStaysClosed(agent, hp, cfg, nature, first.plant, ticks[1..]);
        ChainedAppend(agent, plant.sim.batterySOCPercent, first.applied, first.plant.sim.batterySOCPercent,
                      rest.applied, rest.plant.sim.batterySOCPercent);
      }
    }
  }

  lemma PlantLoopUnfolds(
    agent: Agent, hp: HealthPolicy, cfg: Config, nature: Nature, plant: Plant, ticks: seq<Tick>)
    requires agent.policy.Valid() && cfg.batteryCapacityKWh > 0.0
    ensures var e := PlantLoop(agent, hp, cfg, nature, plant, ticks);
            && (ticks == [] ==> e == PlantEffect(plant, [], [], Running))
            && (ticks != [] ==>
                  var first := PlantInterval(agent, hp, cfg, nature, plant, ticks[0]);
                  if !first.ending.Running? then e == first
                  else
                    var rest := PlantLoop(agent, hp, cfg, nature, first.plant, ticks[1..]);
                    e == PlantEffect(rest.plant, first.applied + rest.applied, first.records + rest.records,
                                     rest.ending))
  {
    hide PlantInterval;
  }

  lemma RestoredConfigIsValid(cfg: Config, db: Database)
    requires cfg.Valid() && Intact(db)
    ensures Restored(cfg, db).Valid()
    ensures var restored := Restored(cfg, db);
            && restored == cfg.(startingBatterySOCPercent := restored.startingBatterySOCPercent)
            && (cfg.deviceID in db.latest ==>
                  restored.startingBatterySOCPercent == db.latest[cfg.deviceID].batterySOCPercent)
            && (cfg.deviceID !in db.latest ==> restored == cfg)
  {
    if cfg.deviceID in db.latest {
      assert db.telemetry[db.latest[cfg.deviceID].lastEventID].event.Valid();
    }
    hide ScheduleValid, Blank;
  }

  lemma StartedPlantIsSound(agent: Agent, cfg: Config, nature: Nature, db: Database)
    requires cfg.Valid() && nature.Lawful() && Wired(agent, cfg) && Intact(db)
    ensures var restored := Restored(cfg, db);
            var plant := StartedPlant(cfg, nature, db);
            && restored.Valid() && Wired(agent, restored)
            && PlantSound(agent, restored, nature, plant)
            && PriorKnown(restored, plant.sim, plant.db)
            && plant.sim.step == 0
            && plant.sim.batterySOCPercent == restored.startingBatterySOCPercent
            && (SafeSchedule(cfg) ==> SafeSchedule(restored))
  {
    RestoredConfigIsValid(cfg, db);
    InitiallyPoised(Restored(cfg, db), nature);
    SameSchedule(cfg, Restored(cfg, db));
    hide SafeSchedule, Poised, Intact, SnapshotOf, Initial;
  }

  lemma SameSchedule(cfg: Config, other: Config)
    requires other == cfg.(startingBatterySOCPercent := other.startingBatterySOCPercent)
    ensures SafeSchedule(cfg) ==> SafeSchedule(other)
  {
    forall step ensures Opens(cfg, step) <==> Opens(other, step) {
      SameOpenings(cfg, other, step);
    }
    hide Opens;
  }

  /** Whether a step opens the loop is decided by the start, the interval and the faults alone. */
  lemma SameOpenings(cfg: Config, other: Config, step: int)
    requires cfg.start == other.start && cfg.interval == other.interval && cfg.faults == other.faults
    ensures Opens(cfg, step) <==> Opens(other, step)
  {
    forall j ensures RedatedName(cfg, j) == RedatedName(other, j) {
    }
    hide FaultAt, RedatedName;
  }

  /** Closed-loop reserve floor. From any intact database, for any weather, clock, failures and number
      of intervals, and any schedule whose redeliveries never follow a step that leaves its sample
      stale: every command the battery carries out was decided from the charge it actually had, and
      its charge never goes below the reserve, nor below where it started if it started lower. */
  lemma ReserveFloor(
    agent: Agent, hp: HealthPolicy, cfg: Config, nature: Nature, db: Database, ticks: seq<Tick>)
    requires cfg.Valid() && nature.Lawful() && Wired(agent, cfg) && SafeSchedule(cfg) && Intact(db)
    ensures agent.policy.Valid()
    ensures var plant := StartedPlant(cfg, nature, db);
            var e := PlantLoop(agent, hp, Restored(cfg, db), nature, plant, ticks);
            var floor := Min(plant.sim.batterySOCPercent, MINIMUM_DISCHARGE_SOC_PERCENT);
            && (forall i :: 0 <= i < |e.applied| ==>
                  && e.applied[i].reportedSOC == e.applied[i].before
                  && floor <= e.applied[i].before <= MAXIMUM_BATTERY_SOC_PERCENT
                  && floor <= e.applied[i].after <= MAXIMUM_BATTERY_SOC_PERCENT)
            && floor <= e.plant.sim.batterySOCPercent <= MAXIMUM_BATTERY_SOC_PERCENT
  {
    var plant := StartedPlant(cfg, nature, db);
    var restored := Restored(cfg, db);
    StartedPlantIsSound(agent, cfg, nature, db);
    LoopStaysClosed(agent, hp, restored, nature, plant, ticks);
    var e := PlantLoop(agent, hp, restored, nature, plant, ticks);
    hide *;
    SoundParts(agent, restored, nature, plant);
    ChainStaysAbove(agent, plant.sim.batterySOCPercent, e.applied, e.plant.sim.batterySOCPercent, |e.applied|);
  }

  lemma {:induction false} ChainStaysAbove(agent: Agent, from: real, applied: seq<Application>, to: real, n: nat)
    requires Chained(agent, from, applied, to) && OnScale(from) && n <= |applied|
    ensures var floor := Min(from, MINIMUM_DISCHARGE_SOC_PERCENT);
            && (forall i :: 0 <= i < n ==>
                  && applied[i].reportedSOC == applied[i].before
                  && floor <= applied[i].before <= MAXIMUM_BATTERY_SOC_PERCENT
                  && floor <= applied[i].after <= MAXIMUM_BATTERY_SOC_PERCENT)
            && (n == |applied| ==> floor <= to <= MAXIMUM_BATTERY_SOC_PERCENT)
  {
    if n > 0 {
      ChainStaysAbove(agent, from, applied, to, n - 1);
      var a := applied[n - 1];
      assert Faithful(agent, a);
      assert Follows(from, applied, n - 1);
    }
    hide Clipped;
  }

  // ---------------------------------------------------------------------------------------------
  // Conservation of energy

  function TotalCommanded(agent: Agent, applied: seq<Application>): real {
    if applied == [] then 0.0
    else TotalCommanded(agent, applied[..|applied| - 1]) + Commanded(agent, applied[|applied| - 1])
  }

  function TotalClipped(agent: Agent, applied: seq<Application>): real {
    if applied == [] then 0.0
    else TotalClipped(agent, applied[..|applied| - 1]) + Clipped(agent, applied[|applied| - 1])
  }

  lemma ChainedInit(agent: Agent, from: real, applied: seq<Application>, to: real)
    requires applied != [] && Chained(agent, from, applied, to)
    ensures Chained(agent, from, applied[..|applied| - 1], applied[|applied| - 1].before)
  {
    var init := applied[..|applied| - 1];
    forall i | 0 <= i < |init|
      ensures Faithful(agent, init[i])
      ensures Follows(from, init, i)
    {
      assert init[i] == applied[i] && Follows(from, applied, i);
    }
    assert Follows(from, applied, |applied| - 1);
    hide Faithful;
  }

  lemma {:induction false} ChainConserves(agent: Agent, from: real, applied: seq<Application>, to: real)
    requires Chained(agent, from, applied, to)
    ensures var capacity := agent.policy.batteryCapacityKWh;
            && EnergyKWh(to, capacity)
               == EnergyKWh(from, capacity) + TotalCommanded(agent, applied) - TotalClipped(agent, applied)
            && TotalClipped(agent, applied) >= 0.0
  {
    if applied != [] {
      var init := applied[..|applied| - 1];
      var last := applied[|applied| - 1];
      ChainedInit(agent, from, applied, to);
      ChainConserves(agent, from, init, last.before);
      assert Faithful(agent, last);
    }
    hide EnergyKWh, Commanded;
  }

  /** Energy conservation over a whole run on a safe schedule: the stored energy at the end is the
      energy at the start plus every commanded energy, signed, less what was clipped; and energy is
      clipped only by a charge that leaves the battery exactly full, never by a discharge. */
  lemma EnergyIsConserved(
    agent: Agent, hp: HealthPolicy, cfg: Config, nature: Nature, db: Database, ticks: seq<Tick>)
    requires cfg.Valid() && nature.Lawful() && Wired(agent, cfg) && SafeSchedule(cfg) && Intact(db)
    ensures agent.policy.Valid()
    ensures var plant := StartedPlant(cfg, nature, db);
            var e := PlantLoop(agent, hp, Restored(cfg, db), nature, plant, ticks);
            var capacity := cfg.batteryCapacityKWh;
            && EnergyKWh(e.plant.sim.batterySOCPercent, capacity)
               == EnergyKWh(plant.sim.batterySOCPercent, capacity)
                + TotalCommanded(agent, e.applied) - TotalClipped(agent, e.applied)
            && TotalClipped(agent, e.applied) >= 0.0
            && (forall i :: 0 <= i < |e.applied| ==>
                  && Clipped(agent, e.applied[i]) >= 0.0
                  && (Clipped(agent, e.applied[i]) > 0.0 ==>
                        e.applied[i].command.decision.Charge? && e.applied[i].after == MAXIMUM_BATTERY_SOC_PERCENT))
  {
    var plant := StartedPlant(cfg, nature, db);
    var restored := Restored(cfg, db);
    StartedPlantIsSound(agent, cfg, nature, db);
    LoopStaysClosed(agent, hp, restored, nature, plant, ticks);
    var e := PlantLoop(agent, hp, restored, nature, plant, ticks);
    hide *;
    PolicyIsValid(agent, restored);
    ChainConserves(agent, plant.sim.batterySOCPercent, e.applied, e.plant.sim.batterySOCPercent);
    EachFaithful(agent, plant.sim.batterySOCPercent, e.applied, e.plant.sim.batterySOCPercent);
    PolicyIsValid(agent, cfg);
  }

  lemma EachFaithful(agent: Agent, from: real, applied: seq<Application>, to: real)
    requires Chained(agent, from, applied, to)
    ensures forall i :: 0 <= i < |applied| ==>
              && Clipped(agent, applied[i]) >= 0.0
              && (Clipped(agent, applied[i]) > 0.0 ==>
                    applied[i].command.decision.Charge? && applied[i].after == MAXIMUM_BATTERY_SOC_PERCENT)
  {
    forall i | 0 <= i < |applied|
      ensures Clipped(agent, applied[i]) >= 0.0
      ensures Clipped(agent, applied[i]) > 0.0 ==>
                applied[i].command.decision.Charge? && applied[i].after == MAXIMUM_BATTERY_SOC_PERCENT
    {
      assert Faithful(agent, applied[i]);
    }
    hide Clipped;
  }
}