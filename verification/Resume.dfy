/** What a restart does to the simulated battery: it resumes from the charge last reported to storage,
    which is not the charge the last command left. */
module Resume {
  import opened Basics
  import opened Observations
  import opened LatestState
  import opened Health
  import opened ControlPolicy
  import opened Storage
  import opened Integrity
  import opened Runtime
  import opened Safety
  import opened Progress
  import opened Battery
  import opened Faults
  import opened Simulator
  import opened ClosedLoop
  import opened Openings
  import opened OpenLoop

  /** A stale charge is redelivered and becomes the device's row, but its command never gets to the
      battery: the process dies between commit and delivery, or the sink fails. Either ends the run. */
  predicate StrandsNow(cfg: Config, plant: Plant, tick: Tick) {
    RedeliversStaleCharge(cfg, plant) && (tick.fate.CrashAfterCommit? || tick.fate.SinkFails?)
  }

  /** The charge such an interval leaves in the row, if the run comes to one. */
  function Stranded(agent: Agent, hp: HealthPolicy, cfg: Config, nature: Nature, plant: Plant, ticks: seq<Tick>)
    : Option<real>
    requires agent.policy.Valid() && cfg.batteryCapacityKWh > 0.0
    decreases |ticks|
  {
    if ticks == [] then None
    else if StrandsNow(cfg, plant, ticks[0]) then Some(plant.sim.prior.batterySOCPercent)
    else
      var first := PlantInterval(agent, hp, cfg, nature, plant, ticks[0]);
      if first.ending.Running? then Stranded(agent, hp, cfg, nature, first.plant, ticks[1..]) else None
  }

  lemma StrandedUnfolds(
    agent: Agent, hp: HealthPolicy, cfg: Config, nature: Nature, plant: Plant, ticks: seq<Tick>)
    requires agent.policy.Valid() && cfg.batteryCapacityKWh > 0.0
    ensures ticks == [] ==> Stranded(agent, hp, cfg, nature, plant, ticks).None?
    ensures ticks != [] ==>
              var first := PlantInterval(agent, hp, cfg, nature, plant, ticks[0]);
              Stranded(agent, hp, cfg, nature, plant, ticks) ==
              if StrandsNow(cfg, plant, ticks[0]) then Some(plant.sim.prior.batterySOCPercent)
              else if first.ending.Running? then Stranded(agent, hp, cfg, nature, first.plant, ticks[1..])
              else None
  {
    hide PlantInterval, StrandsNow;
  }

  /** What a stretch of intervals, from one charge to another, leaves for a restart to read. A stranded
      charge is in the row and is not the battery's. Otherwise, if no command was carried out, the row is
      what it was or reports the present charge; and if one was, the row reports the charge the last
      command was decided from, if it belongs to that command's event, and the present charge if not. */
  predicate Resumes(
    deviceID: string, before: Database, from: real, applied: seq<Application>, after: Database, to: real,
    stranded: Option<real>)
  {
    && Intact(after)
    && (forall id :: id in before.telemetry ==> id in after.telemetry)
    && (applied == [] ==> to == from)
    && (applied != [] ==>
          applied[|applied| - 1].after == to && applied[|applied| - 1].eventID in after.telemetry)
    && (stranded.Some? ==>
          && deviceID in after.latest
          && after.latest[deviceID].batterySOCPercent == stranded.value
          && stranded.value != to
          && after.latest[deviceID].lastEventID !in before.telemetry
          && (applied != [] ==> after.latest[deviceID].lastEventID != applied[|applied| - 1].eventID))
    && (stranded.None? && applied == [] ==>
          || after.latest == before.latest
          || (deviceID in after.latest
              && after.latest[deviceID].batterySOCPercent == to
              && after.latest[deviceID].lastEventID !in before.telemetry))
    && (stranded.None? && applied != [] ==>
          var last := applied[|applied| - 1];
          && deviceID in after.latest
          && after.latest[deviceID].batterySOCPercent ==
             if after.latest[deviceID].lastEventID == last.eventID then last.reportedSOC else to)
  }

  lemma ResumesCompose(
    deviceID: string, a: Database, from: real, first: seq<Application>, b: Database, mid: real,
    rest: seq<Application>, c: Database, to: real, stranded: Option<real>)
    requires Resumes(deviceID, a, from, first, b, mid, None) && Resumes(deviceID, b, mid, rest, c, to, stranded)
    ensures Resumes(deviceID, a, from, first + rest, c, to, stranded)
  {
    hide *;
    if rest == [] {
      assert first + rest == first;
      ResumesIdle(deviceID, a, from, first, b, mid, c, to, stranded);
    } else {
      var all := first + rest;
      assert all != [] && all[|all| - 1] == rest[|rest| - 1];
      ResumesActive(deviceID, a, from, first, b, mid, rest, c, to, stranded, all);
    }
  }

  lemma ResumesActive(
    deviceID: string, a: Database, from: real, first: seq<Application>, b: Database, mid: real,
    rest: seq<Application>, c: Database, to: real, stranded: Option<real>, all: seq<Application>)
    requires Resumes(deviceID, a, from, first, b, mid, None) && Resumes(deviceID, b, mid, rest, c, to, stranded)
    requires rest != [] && all != [] && all[|all| - 1] == rest[|rest| - 1]
    ensures Resumes(deviceID, a, from, all, c, to, stranded)
  {
    hide Intact;
  }

  lemma ResumesIdle(
    deviceID: string, a: Database, from: real, first: seq<Application>, b: Database, mid: real, c: Database, to: real,
    stranded: Option<real>)
    requires Resumes(deviceID, a, from, first, b, mid, None) && Resumes(deviceID, b, mid, [], c, to, stranded)
    ensures Resumes(deviceID, a, from, first, c, to, stranded)
  {
    hide Intact;
  }

  lemma NothingResumes(deviceID: string, db: Database, soc: real)
    requires Intact(db)
    ensures Resumes(deviceID, db, soc, [], db, soc, None)
  {
    hide Intact;
  }

  /** A row only changes under a fate that processes the observation. */
  lemma ChangedMeansProcessed(agent: Agent, hp: HealthPolicy, memory: Memory, db: Database, step: Step)
    requires agent.policy.Valid() && Intact(db) && Refines(memory, db, agent.deviceID)
    requires Interval(agent, hp, memory, db, step).db.latest != db.latest
    requires EventOf(step.envelope).Some? && !Late(agent, step.envelope)
    ensures ReachesSink(step.fate) || step.fate.CrashAfterCommit? || step.fate.SinkFails?
  {
    var p := Process(agent, hp, memory, db, step.envelope, step.now, FailureOf(step.fate));
    IntervalCases(agent, hp, memory, db, step);
    ProcessMeaning(agent, hp, memory, db, step.envelope, step.now, FailureOf(step.fate));
    StruckIsUnprocessed(agent, hp, memory, db, step.envelope, step.now, FailureOf(step.fate));
    hide Interval, Process, EventOf, Late, Intact, Refines, BuildRecord, RecordedBy, Supersedes, Policy.Decide;
  }

  /** A new and newer event becomes the row whether its command is delivered or not. */
  lemma StrandedIsCommitted(agent: Agent, hp: HealthPolicy, memory: Memory, db: Database, step: Step)
    requires agent.policy.Valid() && !Blank(agent.deviceID) && Intact(db) && Refines(memory, db, agent.deviceID)
    requires step.fate.CrashAfterCommit? || step.fate.SinkFails?
    requires EventOf(step.envelope).Some? && !Foreign(agent.deviceID, step.envelope)
    requires EventOf(step.envelope).value.eventID !in db.telemetry
    requires Supersedes(EventOf(step.envelope).value, memory.state)
    ensures NewRow(agent, db, EventOf(step.envelope), Interval(agent, hp, memory, db, step).db)
  {
    var p := Process(agent, hp, memory, db, step.envelope, step.now, FailureOf(step.fate));
    NewEventIsProcessed(agent, hp, memory, db, step.envelope, step.now, FailureOf(step.fate));
    IntervalCases(agent, hp, memory, db, step);
    ProcessMeaning(agent, hp, memory, db, step.envelope, step.now, FailureOf(step.fate));
    hide Interval, Process, EventOf, Late, Intact, Refines, BuildRecord, RecordedBy, Supersedes, Policy.Decide, Foreign,
      Blank;
  }

  /** One interval, on any schedule and under any fate. */
  lemma IntervalResumes(agent: Agent, hp: HealthPolicy, cfg: Config, nature: Nature, plant: Plant, tick: Tick)
    requires cfg.Valid() && nature.Lawful() && Wired(agent, cfg) && PlantSound(agent, cfg, nature, plant)
    ensures agent.policy.Valid()
    ensures var e := PlantInterval(agent, hp, cfg, nature, plant, tick);
            Resumes(agent.deviceID, plant.db, plant.sim.batterySOCPercent, e.applied, e.plant.db,
                    e.plant.sim.batterySOCPercent,
                    if StrandsNow(cfg, plant, tick) then Some(plant.sim.prior.batterySOCPercent) else None)
  {
    hide *;
    PolicyIsValid(agent, cfg);
    SoundParts(agent, cfg, nature, plant);
    var soc := plant.sim.batterySOCPercent;
    var envelope := HandedEnvelope(cfg, nature, plant.sim);
    var step := Step(envelope, tick.now, tick.fate);
    var e := Interval(agent, hp, plant.memory, plant.db, step);
    var after := PlantInterval(agent, hp, cfg, nature, plant, tick);
    IntervalDispatch(agent, hp, plant.memory, plant.db, step);
    PlantAdvances(agent, hp, cfg, nature, plant, tick);
    AdvancesMeans(agent, hp, cfg, nature, plant, tick, envelope);
    StaleEnvelope(agent, cfg, nature, plant);
    IntervalOpensExactly(agent, hp, cfg, nature, plant, tick);
    ReportedMeans(envelope);
    StrandsMeans(agent, cfg, plant, tick);
    NothingResumes(agent.deviceID, plant.db, soc);
    if !tick.fate.Cancelled? {
      if StrandsNow(cfg, plant, tick) {
        StrandedIsCommitted(agent, hp, plant.memory, plant.db, step);
        StrandedRow(agent, plant.db, soc, EventOf(envelope), e.db, plant.sim.prior.batterySOCPercent);
      } else {
        if e.db.latest != plant.db.latest && RedeliversStaleCharge(cfg, plant) {
          ChangedMeansProcessed(agent, hp, plant.memory, plant.db, step);
        }
        RowResumes(agent, plant.db, soc, EventOf(envelope), after.applied, e.db, after.plant.sim.batterySOCPercent);
      }
    }
  }

  lemma StrandsMeans(agent: Agent, cfg: Config, plant: Plant, tick: Tick)
    ensures OpensNow(cfg, plant, tick) <==> RedeliversStaleCharge(cfg, plant) && ReachesSink(tick.fate)
    ensures StrandsNow(cfg, plant, tick) <==>
            RedeliversStaleCharge(cfg, plant) && (tick.fate.CrashAfterCommit? || tick.fate.SinkFails?)
    ensures StrandsNow(cfg, plant, tick) ==> !OpensNow(cfg, plant, tick) && !tick.fate.Cancelled?
    ensures TelemetryOf(cfg.deviceID, plant.sim.prior).batterySOCPercent == plant.sim.prior.batterySOCPercent
  {
    hide RedeliversStaleCharge;
  }

  lemma StrandedRow(
    agent: Agent, before: Database, soc: real, event: Option<Telemetry>, after: Database, charge: real)
    requires Intact(after) && forall id :: id in before.telemetry ==> id in after.telemetry
    requires NewRow(agent, before, event, after) && event.value.batterySOCPercent == charge != soc
    ensures Resumes(agent.deviceID, before, soc, [], after, soc, Some(charge))
  {
    hide Intact;
  }

  lemma RowResumes(
    agent: Agent, before: Database, soc: real, event: Option<Telemetry>, applied: seq<Application>, after: Database,
    to: real)
    requires Intact(after) && forall id :: id in before.telemetry ==> id in after.telemetry
    requires after.latest == before.latest || NewRow(agent, before, event, after)
    requires after.latest != before.latest && applied == [] ==> event.value.batterySOCPercent == soc
    requires applied == [] ==> to == soc
    requires applied != [] ==>
               && |applied| == 1
               && NewRow(agent, before, event, after)
               && applied[0].eventID == event.value.eventID
               && applied[0].reportedSOC == event.value.batterySOCPercent
               && applied[0].after == to
    ensures Resumes(agent.deviceID, before, soc, applied, after, to, None)
  {
    hide Intact;
  }

  lemma StrandingEnds(agent: Agent, hp: HealthPolicy, cfg: Config, nature: Nature, plant: Plant, tick: Tick)
    requires cfg.Valid() && nature.Lawful() && Wired(agent, cfg) && PlantSound(agent, cfg, nature, plant)
    ensures agent.policy.Valid()
    ensures StrandsNow(cfg, plant, tick) ==> !PlantInterval(agent, hp, cfg, nature, plant, tick).ending.Running?
  {
    hide *;
    PolicyIsValid(agent, cfg);
    SoundParts(agent, cfg, nature, plant);
    var envelope := HandedEnvelope(cfg, nature, plant.sim);
    PlantAdvances(agent, hp, cfg, nature, plant, tick);
    AdvancesMeans(agent, hp, cfg, nature, plant, tick, envelope);
    SinkRefusal(agent, hp, plant.memory, plant.db, Step(envelope, tick.now, tick.fate));
    StrandsMeans(agent, cfg, plant, tick);
  }

  lemma {:induction false} LoopResumes(
    agent: Agent, hp: HealthPolicy, cfg: Config, nature: Nature, plant: Plant, ticks: seq<Tick>)
    requires cfg.Valid() && nature.Lawful() && Wired(agent, cfg) && PlantSound(agent, cfg, nature, plant)
    ensures agent.policy.Valid()
    ensures var e := PlantLoop(agent, hp, cfg, nature, plant, ticks);
            var stranded := Stranded(agent, hp, cfg, nature, plant, ticks);
            && Resumes(agent.deviceID, plant.db, plant.sim.batterySOCPercent, e.applied, e.plant.db,
                       e.plant.sim.batterySOCPercent, stranded)
            && (e.ending.Running? ==> stranded.None?)
    decreases |ticks|
  {
    hide *;
    PolicyIsValid(agent, cfg);
    SoundParts(agent, cfg, nature, plant);
    NothingResumes(agent.deviceID, plant.db, plant.sim.batterySOCPercent);
    PlantLoopUnfolds(agent, hp, cfg, nature, plant, ticks);
    StrandedUnfolds(agent, hp, cfg, nature, plant, ticks);
    if ticks != [] {
      var first := PlantInterval(agent, hp, cfg, nature, plant, ticks[0]);
      IntervalResumes(agent, hp, cfg, nature, plant, ticks[0]);
      StrandingEnds(agent, hp, cfg, nature, plant, ticks[0]);
      PlantStaysSound(agent, hp, cfg, nature, plant, ticks[0]);
      if first.ending.Running? {
        var rest := PlantLoop(agent, hp, cfg, nature, first.plant, ticks[1..]);
        LoopResumes(agent, hp, cfg, nature, first.plant, ticks[1..]);
        ResumesCompose(agent.deviceID, plant.db, plant.sim.batterySOCPercent, first.applied, first.plant.db,
                       first.plant.sim.batterySOCPercent, rest.applied, rest.plant.db,
                       rest.plant.sim.batterySOCPercent,
                       Stranded(agent, hp, cfg, nature, first.plant, ticks[1..]));
      }
    }
  }

  /** No event was accepted after the one behind the last command. */
  predicate LastWord(deviceID: string, db: Database, applied: seq<Application>) {
    && applied != []
    && deviceID in db.latest
    && db.latest[deviceID].lastEventID == applied[|applied| - 1].eventID
  }

  /** Restart equivalence fails for the closed loop, and this is exactly when. After any run of the program
      from any intact database, on any valid schedule and however it ended, the next run's battery starts from
      the stranded charge, if the run stranded one; otherwise from the charge the last command was decided
      from, if no event was accepted since; and otherwise from the battery's present charge. So it starts where
      the battery is, if and only if no charge was stranded and, unless an event was accepted since, the last
      command left the charge it was decided from. A run that is still going has stranded none. */
  lemma RestartCharge(
    agent: Agent, hp: HealthPolicy, cfg: Config, nature: Nature, db: Database, ticks: seq<Tick>)
    requires cfg.Valid() && nature.Lawful() && Wired(agent, cfg) && Intact(db)
    ensures agent.policy.Valid() && Restored(cfg, db).batteryCapacityKWh > 0.0
    ensures var plant := StartedPlant(cfg, nature, db);
            var e := PlantLoop(agent, hp, Restored(cfg, db), nature, plant, ticks);
            var stranded := Stranded(agent, hp, Restored(cfg, db), nature, plant, ticks);
            var lastWord := LastWord(cfg.deviceID, e.plant.db, e.applied);
            var next := Restored(cfg, e.plant.db).startingBatterySOCPercent;
            var soc := e.plant.sim.batterySOCPercent;
            && (lastWord ==> e.applied != [])
            && (stranded.Some? ==> next == stranded.value && !e.ending.Running?)
            && (stranded.None? && lastWord ==> next == e.applied[|e.applied| - 1].reportedSOC)
            && (stranded.None? && !lastWord ==> next == soc)
            && (next == soc <==>
                  && stranded.None?
                  && (lastWord ==> e.applied[|e.applied| - 1].reportedSOC == e.applied[|e.applied| - 1].after))
  {
    hide *;
    var restored := Restored(cfg, db);
    var plant := StartedPlant(cfg, nature, db);
    PolicyIsValid(agent, cfg);
    RestoredConfigIsValid(cfg, db);
    StartedPlantIsSound(agent, cfg, nature, db);
    PolicyIsValid(agent, restored);
    StartedFrom(cfg, nature, db);
    LoopResumes(agent, hp, restored, nature, plant, ticks);
    var e := PlantLoop(agent, hp, restored, nature, plant, ticks);
    var stranded := Stranded(agent, hp, restored, nature, plant, ticks);
    ResumesIntact(cfg.deviceID, db, plant.sim.batterySOCPercent, e.applied, e.plant.db, e.plant.sim.batterySOCPercent,
                  stranded);
    RestoredConfigIsValid(cfg, e.plant.db);
    ReadBack(cfg, db, plant.sim.batterySOCPercent, e.applied, e.plant.db, e.plant.sim.batterySOCPercent, stranded);
  }

  lemma StartedFrom(cfg: Config, nature: Nature, db: Database)
    ensures StartedPlant(cfg, nature, db).db == db
  {
    hide Initial, Restored, RestoredMemory;
  }

  lemma ResumesIntact(
    deviceID: string, before: Database, from: real, applied: seq<Application>, after: Database, to: real,
    stranded: Option<real>)
    requires Resumes(deviceID, before, from, applied, after, to, stranded)
    ensures Intact(after)
    ensures deviceID in before.latest ==> deviceID in after.latest
  {
    hide Intact;
  }

  lemma ReadBack(
    cfg: Config, before: Database, from: real, applied: seq<Application>, after: Database, to: real,
    stranded: Option<real>)
    requires Resumes(cfg.deviceID, before, from, applied, after, to, stranded)
    requires cfg.deviceID in before.latest ==> from == before.latest[cfg.deviceID].batterySOCPercent
    requires cfg.deviceID !in before.latest ==> from == cfg.startingBatterySOCPercent
    requires cfg.deviceID in after.latest ==>
               Restored(cfg, after).startingBatterySOCPercent == after.latest[cfg.deviceID].batterySOCPercent
    requires cfg.deviceID !in after.latest ==> Restored(cfg, after) == cfg
    ensures var next := Restored(cfg, after).startingBatterySOCPercent;
            var lastWord := LastWord(cfg.deviceID, after, applied);
            && (lastWord ==> applied != [] && stranded.None? && applied[|applied| - 1].after == to)
            && (stranded.Some? ==> next == stranded.value != to)
            && (stranded.None? && lastWord ==> next == applied[|applied| - 1].reportedSOC)
            && (stranded.None? && !lastWord ==> next == to)
  {
    hide Intact, Restored;
  }

  /** On a safe schedule nothing is ever stranded. */
  lemma {:induction false} SafeNeverStrands(
    agent: Agent, hp: HealthPolicy, cfg: Config, nature: Nature, plant: Plant, ticks: seq<Tick>)
    requires cfg.Valid() && nature.Lawful() && Wired(agent, cfg) && SafeSchedule(cfg)
    requires PlantSound(agent, cfg, nature, plant) && PriorKnown(cfg, plant.sim, plant.db)
    ensures agent.policy.Valid()
    ensures Stranded(agent, hp, cfg, nature, plant, ticks).None?
    decreases |ticks|
  {
    hide *;
    PolicyIsValid(agent, cfg);
    StrandedUnfolds(agent, hp, cfg, nature, plant, ticks);
    if ticks != [] {
      SoundParts(agent, cfg, nature, plant);
      HandedMeans(cfg, nature, plant.sim);
      EventReportsPresentCharge(cfg, nature, plant.sim, plant.db);
      StaleEnvelope(agent, cfg, nature, plant);
      StrandsMeans(agent, cfg, plant, ticks[0]);
      PlantIntervalKeepsReserve(agent, hp, cfg, nature, plant, ticks[0]);
      var first := PlantInterval(agent, hp, cfg, nature, plant, ticks[0]);
      if first.ending.Running? {
        SafeNeverStrands(agent, hp, cfg, nature, first.plant, ticks[1..]);
      }
    }
  }

  /** On a safe schedule, in particular: a restart starts from the charge before the last command if no event
      was accepted since, and from the present charge otherwise. So it starts where the battery is, if and only
      if there was such an event, or no command at all, or the last command moved nothing. */
  lemma SafeRestartCharge(
    agent: Agent, hp: HealthPolicy, cfg: Config, nature: Nature, db: Database, ticks: seq<Tick>)
    requires cfg.Valid() && nature.Lawful() && Wired(agent, cfg) && SafeSchedule(cfg) && Intact(db)
    ensures agent.policy.Valid() && Restored(cfg, db).batteryCapacityKWh > 0.0
    ensures var e := PlantLoop(agent, hp, Restored(cfg, db), nature, StartedPlant(cfg, nature, db), ticks);
            var lastWord := LastWord(cfg.deviceID, e.plant.db, e.applied);
            var next := Restored(cfg, e.plant.db).startingBatterySOCPercent;
            var soc := e.plant.sim.batterySOCPercent;
            && (lastWord ==> e.applied != [] && next == e.applied[|e.applied| - 1].before)
            && (!lastWord ==> next == soc)
            && (next == soc <==>
                  (lastWord ==> e.applied[|e.applied| - 1].before == e.applied[|e.applied| - 1].after))
  {
    hide *;
    RestartCharge(agent, hp, cfg, nature, db, ticks);
    StartedPlantIsSound(agent, cfg, nature, db);
    SafeNeverStrands(agent, hp, Restored(cfg, db), nature, StartedPlant(cfg, nature, db), ticks);
    ReserveFloor(agent, hp, cfg, nature, db, ticks);
  }

  // ---------------------------------------------------------------------------------------------
  // The reserve over restarts

  /** One run of a household: its own configuration, weather and clock. */
  datatype Session = Session(agent: Agent, hp: HealthPolicy, cfg: Config, nature: Nature, ticks: seq<Tick>) {
    ghost predicate Safe(deviceID: string) {
      && cfg.Valid()
      && nature.Lawful()
      && Wired(agent, cfg)
      && SafeSchedule(cfg)
      && cfg.deviceID == deviceID
      && agent.policy.Valid()
    }

    function On(db: Database): PlantEffect
      requires agent.policy.Valid() && cfg.batteryCapacityKWh > 0.0
    {
      PlantLoop(agent, hp, Restored(cfg, db), nature, StartedPlant(cfg, nature, db), ticks)
    }
  }

  ghost predicate AllSafe(sessions: seq<Session>, deviceID: string) {
    forall i :: 0 <= i < |sessions| ==> sessions[i].Safe(deviceID)
  }

  /** The database after runs of one household, one after another. */
  ghost function After(db: Database, sessions: seq<Session>, deviceID: string): Database
    requires AllSafe(sessions, deviceID)
  {
    if sessions == [] then db
    else
      sessions[|sessions| - 1].On(After(db, sessions[..|sessions| - 1], deviceID)).plant.db
  }

  /** A run starts from the stored charge, or from the configured one where none is stored. */
  predicate StartsFrom(db: Database, session: Session, deviceID: string, floor: real) {
    if deviceID in db.latest then floor <= db.latest[deviceID].batterySOCPercent
    else floor <= session.cfg.startingBatterySOCPercent
  }

  /** No charge that the runs are given, rather than leave to each other, is below a floor: the charge stored
      to begin with, and the configured one of every run that finds none stored. */
  ghost predicate StartsAbove(db: Database, sessions: seq<Session>, deviceID: string, floor: real)
    requires AllSafe(sessions, deviceID)
  {
    && (deviceID in db.latest ==> floor <= db.latest[deviceID].batterySOCPercent)
    && (forall i :: 0 <= i < |sessions| ==> GivenAbove(db, sessions, deviceID, floor, i))
  }

  ghost predicate GivenAbove(db: Database, sessions: seq<Session>, deviceID: string, floor: real, i: nat)
    requires AllSafe(sessions, deviceID) && i < |sessions|
  {
    || deviceID in After(db, sessions[..i], deviceID).latest
    || floor <= sessions[i].cfg.startingBatterySOCPercent
  }

  /** Every charge of one run. */
  predicate StaysAbove(e: PlantEffect, floor: real) {
    && (forall i :: 0 <= i < |e.applied| ==>
          floor <= e.applied[i].before <= MAXIMUM_BATTERY_SOC_PERCENT
          && floor <= e.applied[i].after <= MAXIMUM_BATTERY_SOC_PERCENT)
    && floor <= e.plant.sim.batterySOCPercent <= MAXIMUM_BATTERY_SOC_PERCENT
  }

  /** One more run keeps the floor, in the battery and in storage. */
  lemma SessionKeepsFloor(session: Session, db: Database, deviceID: string, floor: real)
    requires session.Safe(deviceID) && Intact(db) && floor <= MINIMUM_DISCHARGE_SOC_PERCENT
    requires StartsFrom(db, session, deviceID, floor)
    ensures session.cfg.batteryCapacityKWh > 0.0
    ensures var e := session.On(db);
            && StaysAbove(e, floor)
            && Intact(e.plant.db)
            && (deviceID in db.latest ==> deviceID in e.plant.db.latest)
            && (deviceID in e.plant.db.latest ==> floor <= e.plant.db.latest[deviceID].batterySOCPercent)
  {
    hide *;
    SessionMeans(session, db, deviceID);
    var agent, hp, cfg, nature, ticks := session.agent, session.hp, session.cfg, session.nature, session.ticks;
    var restored := Restored(cfg, db);
    var plant := StartedPlant(cfg, nature, db);
    var e := session.On(db);
    RestoredConfigIsValid(cfg, db);
    StartedPlantIsSound(agent, cfg, nature, db);
    StartedFrom(cfg, nature, db);
    PolicyIsValid(agent, restored);
    StartMeans(session, db, deviceID, floor);
    ReserveFloor(agent, hp, cfg, nature, db, ticks);
    SafeRestartCharge(agent, hp, cfg, nature, db, ticks);
    LoopResumes(agent, hp, restored, nature, plant, ticks);
    ResumesIntact(deviceID, db, plant.sim.batterySOCPercent, e.applied, e.plant.db, e.plant.sim.batterySOCPercent,
                  Stranded(agent, hp, restored, nature, plant, ticks));
    RestoredConfigIsValid(cfg, e.plant.db);
    MinIsNotBelow(plant.sim.batterySOCPercent, floor);
    StaysAboveFrom(e, Min(plant.sim.batterySOCPercent, MINIMUM_DISCHARGE_SOC_PERCENT), floor);
  }

  lemma SessionMeans(session: Session, db: Database, deviceID: string)
    requires session.Safe(deviceID)
    ensures session.cfg.Valid() && session.nature.Lawful() && Wired(session.agent, session.cfg)
    ensures SafeSchedule(session.cfg) && session.cfg.deviceID == deviceID && session.agent.deviceID == deviceID
    ensures session.agent.policy.Valid() && session.cfg.batteryCapacityKWh > 0.0
    ensures Restored(session.cfg, db).batteryCapacityKWh > 0.0
    ensures session.On(db) ==
            PlantLoop(session.agent, session.hp, Restored(session.cfg, db), session.nature,
                      StartedPlant(session.cfg, session.nature, db), session.ticks)
  {
    hide SafeSchedule, ScheduleValid, Nature.Lawful, Blank, PlantLoop, StartedPlant, SnapshotOf;
  }

  lemma StartMeans(session: Session, db: Database, deviceID: string, floor: real)
    requires StartsFrom(db, session, deviceID, floor)
    ensures deviceID in db.latest ==> floor <= db.latest[deviceID].batterySOCPercent
    ensures deviceID !in db.latest ==> floor <= session.cfg.startingBatterySOCPercent
  {
  }

  lemma StaysAboveFrom(e: PlantEffect, higher: real, floor: real)
    requires floor <= higher
    requires forall i :: 0 <= i < |e.applied| ==>
               && higher <= e.applied[i].before <= MAXIMUM_BATTERY_SOC_PERCENT
               && higher <= e.applied[i].after <= MAXIMUM_BATTERY_SOC_PERCENT
    requires higher <= e.plant.sim.batterySOCPercent <= MAXIMUM_BATTERY_SOC_PERCENT
    ensures StaysAbove(e, floor)
    ensures forall i :: 0 <= i < |e.applied| ==> floor <= e.applied[i].before
    ensures floor <= e.plant.sim.batterySOCPercent
  {
  }

  lemma {:induction false} StorageStaysAbove(db: Database, sessions: seq<Session>, deviceID: string, floor: real)
    requires AllSafe(sessions, deviceID) && Intact(db) && floor <= MINIMUM_DISCHARGE_SOC_PERCENT
    requires StartsAbove(db, sessions, deviceID, floor)
    ensures var after := After(db, sessions, deviceID);
            && Intact(after)
            && (deviceID in db.latest ==> deviceID in after.latest)
            && (deviceID in after.latest ==> floor <= after.latest[deviceID].batterySOCPercent)
  {
    hide *;
    if sessions == [] {
      NoSessions(db, deviceID, floor);
    } else {
      var init := sessions[..|sessions| - 1];
      var last := sessions[|sessions| - 1];
      SessionsUnfold(db, sessions, deviceID, floor);
      StorageStaysAbove(db, init, deviceID, floor);
      LastStarts(last, deviceID, floor, After(db, init, deviceID));
      SessionKeepsFloor(last, After(db, init, deviceID), deviceID, floor);
    }
  }

  lemma NoSessions(db: Database, deviceID: string, floor: real)
    ensures AllSafe([], deviceID) && After(db, [], deviceID) == db
    ensures deviceID in db.latest && StartsAbove(db, [], deviceID, floor) ==>
              floor <= db.latest[deviceID].batterySOCPercent
  {
  }

  lemma SessionsUnfold(db: Database, sessions: seq<Session>, deviceID: string, floor: real)
    requires sessions != [] && AllSafe(sessions, deviceID) && StartsAbove(db, sessions, deviceID, floor)
    ensures var init := sessions[..|sessions| - 1];
            var last := sessions[|sessions| - 1];
            && AllSafe(init, deviceID) && StartsAbove(db, init, deviceID, floor)
            && last.Safe(deviceID) && last.agent.policy.Valid() && last.cfg.batteryCapacityKWh > 0.0
            && After(db, sessions, deviceID) == last.On(After(db, init, deviceID)).plant.db
            && (deviceID in After(db, init, deviceID).latest || floor <= last.cfg.startingBatterySOCPercent)
  {
    var n := |sessions| - 1;
    FewerSessions(db, sessions, deviceID, floor, n);
    assert GivenAbove(db, sessions, deviceID, floor, n);
    hide Session.On, SafeSchedule, ScheduleValid, Nature.Lawful, Blank, Wired, StartsAbove;
  }

  lemma LastStarts(session: Session, deviceID: string, floor: real, after: Database)
    requires deviceID in after.latest || floor <= session.cfg.startingBatterySOCPercent
    requires deviceID in after.latest ==> floor <= after.latest[deviceID].batterySOCPercent
    ensures StartsFrom(after, session, deviceID, floor)
  {
  }

  /** The reserve over any number of restarts on safe schedules, whatever ends the runs between: no run of the
      household ever takes a charge below a floor that is at most the reserve and not above any charge the
      household is given to start from. */
  lemma ReserveOverRestarts(db: Database, sessions: seq<Session>, deviceID: string, floor: real, i: nat)
    requires AllSafe(sessions, deviceID) && Intact(db) && floor <= MINIMUM_DISCHARGE_SOC_PERCENT
    requires StartsAbove(db, sessions, deviceID, floor) && i < |sessions|
    ensures AllSafe(sessions[..i], deviceID)
    ensures sessions[i].agent.policy.Valid() && sessions[i].cfg.batteryCapacityKWh > 0.0
    ensures StaysAbove(sessions[i].On(After(db, sessions[..i], deviceID)), floor)
  {
    hide *;
    var some := sessions[..i + 1];
    FewerSessions(db, sessions, deviceID, floor, i + 1);
    assert some[..|some| - 1] == sessions[..i] && some[|some| - 1] == sessions[i];
    SessionsUnfold(db, some, deviceID, floor);
    StorageStaysAbove(db, sessions[..i], deviceID, floor);
    LastStarts(sessions[i], deviceID, floor, After(db, sessions[..i], deviceID));
    SessionKeepsFloor(sessions[i], After(db, sessions[..i], deviceID), deviceID, floor);
  }

  lemma FewerSessions(db: Database, sessions: seq<Session>, deviceID: string, floor: real, n: nat)
    requires n <= |sessions| && AllSafe(sessions, deviceID) && StartsAbove(db, sessions, deviceID, floor)
    ensures AllSafe(sessions[..n], deviceID) && StartsAbove(db, sessions[..n], deviceID, floor)
  {
    var fewer := sessions[..n];
    forall i | 0 <= i < n ensures GivenAbove(db, fewer, deviceID, floor, i) {
      assert GivenAbove(db, sessions, deviceID, floor, i);
      assert fewer[..i] == sessions[..i];
    }
    hide Session.Safe, After, GivenAbove;
  }

  // ---------------------------------------------------------------------------------------------
  // The jump

  /** Without faults the next sample is handed over as it is, on time. */
  lemma FaultFreeHandover(agent: Agent, cfg: Config, nature: Nature, plant: Plant)
    requires Set(agent, cfg, nature) && Ready(agent, cfg, nature, plant) && cfg.faults == []
    requires InstantOf(cfg, plant.sim.step + 1) != 0
    ensures var envelope := HandedEnvelope(cfg, nature, plant.sim);
            var pending := Advanced(cfg, nature, plant.sim).pending;
            && EventOf(envelope) == Some(TelemetryOf(cfg.deviceID, pending))
            && !Late(agent, envelope)
            && envelope.value.receivedAt == pending.eventTime
            && pending.eventID == NameOf(cfg, nature, plant.sim.step + 1)
            && pending.eventTime == Time(InstantOf(cfg, plant.sim.step + 1), true)
            && pending.batterySOCPercent == plant.sim.batterySOCPercent
            && Demanding(pending)
  {
    var next := Advanced(cfg, nature, plant.sim);
    assert FaultAt(cfg.faults, plant.sim.step + 1).None?;
    HandsOut(cfg, nature, plant.sim);
    AdvancedIsSeasoned(cfg, nature, plant.sim);
    DeliveredEvent(cfg, next, None);
    ReceivedOnTime(cfg, next, None);
    OnTime(agent, cfg, HandedEnvelope(cfg, nature, plant.sim));
    hide EventOf, DeliveredEnvelope, Advanced, SoundSample, InstantOf, ScheduleValid, Nature.Lawful, SoundFactors,
      Blank, Intact, Refines, Seasoned, Demanding, Late, Sized;
  }

  /** A fault-free interval at 30 percent: new to storage, so the battery is drawn on. */
  lemma FreshDraw(agent: Agent, hp: HealthPolicy, cfg: Config, nature: Nature, plant: Plant, tick: Tick)
    requires Set(agent, cfg, nature) && Ready(agent, cfg, nature, plant) && Calm(tick) && cfg.faults == []
    requires InstantOf(cfg, plant.sim.step + 1) != 0
    requires NameOf(cfg, nature, plant.sim.step + 1) !in plant.db.telemetry
    requires plant.memory.state.updatedAt.IsZero()
             || plant.memory.state.updatedAt.ns < InstantOf(cfg, plant.sim.step + 1)
    requires plant.sim.batterySOCPercent == 30.0
    ensures agent.policy.Valid() && cfg.batteryCapacityKWh > 0.0
    ensures var e := PlantInterval(agent, hp, cfg, nature, plant, tick);
            && e.ending.Running?
            && Ready(agent, cfg, nature, e.plant)
            && e.plant.sim.step == plant.sim.step + 1
            && |e.applied| == 1
            && e.applied[0].before == 30.0
            && e.applied[0].after == 20.0 == e.plant.sim.batterySOCPercent
            && e.plant.db.telemetry.Keys == plant.db.telemetry.Keys + {NameOf(cfg, nature, plant.sim.step + 1)}
            && e.plant.memory.state.batterySOCPercent == 30.0
            && e.plant.memory.state.updatedAt == Time(InstantOf(cfg, plant.sim.step + 1), true)
  {
    hide *;
    var pending := Advanced(cfg, nature, plant.sim).pending;
    SetMeans(agent, cfg, nature);
    FaultFreeHandover(agent, cfg, nature, plant);
    EventMeans(cfg.deviceID, pending);
    SampleDraws(agent, cfg, plant, HandedEnvelope(cfg, nature, plant.sim), pending);
    CalmStepsOn(agent, hp, cfg, nature, plant, tick);
    StepsOnMeans(agent, cfg, nature, plant, PlantInterval(agent, hp, cfg, nature, plant, tick));
    DrawingStep(agent, hp, cfg, nature, plant, tick);
  }

  lemma EventMeans(deviceID: string, sample: Sample)
    ensures var event := TelemetryOf(deviceID, sample);
            && event.eventID == sample.eventID
            && event.eventTime == sample.eventTime
            && event.deviceID == deviceID
            && event.batterySOCPercent == sample.batterySOCPercent
            && StateOf(event).updatedAt == sample.eventTime
            && StateOf(event).batterySOCPercent == sample.batterySOCPercent
  {
  }

  /** A fault-free interval at the reserve: the policy idles. */
  lemma FreshIdle(agent: Agent, hp: HealthPolicy, cfg: Config, nature: Nature, plant: Plant, tick: Tick)
    requires Set(agent, cfg, nature) && Ready(agent, cfg, nature, plant) && Calm(tick) && cfg.faults == []
    requires InstantOf(cfg, plant.sim.step + 1) != 0
    requires NameOf(cfg, nature, plant.sim.step + 1) !in plant.db.telemetry
    requires plant.memory.state.updatedAt.ns < InstantOf(cfg, plant.sim.step + 1)
    requires plant.sim.batterySOCPercent == 20.0
    ensures agent.policy.Valid() && cfg.batteryCapacityKWh > 0.0
    ensures var e := PlantInterval(agent, hp, cfg, nature, plant, tick);
            && e.ending.Running?
            && |e.applied| == 1
            && e.applied[0].before == 20.0
            && e.applied[0].after == 20.0 == e.plant.sim.batterySOCPercent
  {
    hide *;
    var pending := Advanced(cfg, nature, plant.sim).pending;
    var envelope := HandedEnvelope(cfg, nature, plant.sim);
    var step := Step(envelope, tick.now, tick.fate);
    SetMeans(agent, cfg, nature);
    PolicyIsValid(agent, cfg);
    ReadyMeans(agent, cfg, nature, plant, tick);
    FaultFreeHandover(agent, cfg, nature, plant);
    EventMeans(cfg.deviceID, pending);
    NewerSupersedes(TelemetryOf(cfg.deviceID, pending), plant.memory.state);
    CalmStepsOn(agent, hp, cfg, nature, plant, tick);
    NewEventInterval(agent, hp, plant.memory, plant.db, step);
    PlantAdvances(agent, hp, cfg, nature, plant, tick);
    AdvancesMeans(agent, hp, cfg, nature, plant, tick, envelope);
    IdleAtReserve(agent.policy, StateOf(TelemetryOf(cfg.deviceID, pending)), pending, cfg.deviceID);
    ReserveHolds(cfg);
  }

  lemma NewerSupersedes(event: Telemetry, state: State)
    requires state.updatedAt.ns < event.eventTime.ns
    ensures Supersedes(event, state)
  {
  }

  lemma IdleAtReserve(policy: Policy, state: State, pending: Sample, deviceID: string)
    requires policy.Valid() && state == StateOf(TelemetryOf(deviceID, pending))
    requires Demanding(pending) && pending.batterySOCPercent == 20.0
    ensures CommandBatteryPowerKW(policy.Decide(state)) == 0.0
  {
  }

  lemma ReserveHolds(cfg: Config)
    requires cfg.batteryCapacityKWh > 0.0
    ensures NextBatterySOCPercent(20.0, 0.0, cfg.interval, cfg.batteryCapacityKWh) == 20.0
  {
    IdleHolds(20.0, cfg.interval, cfg.batteryCapacityKWh);
    hide NextBatterySOCPercent;
  }

  function Later(cfg: Config): Config {
    cfg.(start := Time(2 * NANOS_PER_HOUR, true))
  }

  /** The hourly household without faults, ready for its first or its second interval. */
  lemma HourlyNames(agent: Agent, nature: Nature)
    requires Wired(agent, Hourly([])) && nature.Lawful() && nature.NamesApart()
    ensures var cfg := Hourly([]);
            && Set(agent, cfg, nature) && Set(agent, Later(cfg), nature)
            && Later(cfg).deviceID == cfg.deviceID && agent.deviceID == cfg.deviceID
            && 0 < InstantOf(cfg, 1) < InstantOf(cfg, 2) == InstantOf(Later(cfg), 1)
            && NameOf(Later(cfg), nature, 1) == NameOf(cfg, nature, 2) != NameOf(cfg, nature, 1)
            && Later(cfg).startingBatterySOCPercent == 30.0
            && cfg.faults == [] && Later(cfg).faults == []
  {
    var cfg := Hourly([]);
    HourlyIsValid([]);
    assert Later(cfg).Valid();
    assert nature.eventID("home", NANOS_PER_HOUR) != nature.eventID("home", 2 * NANOS_PER_HOUR);
    hide Nature.Lawful;
  }

  lemma StartedReady(agent: Agent, cfg: Config, nature: Nature, db: Database)
    requires Set(agent, cfg, nature) && Intact(db) && Restored(cfg, db) == cfg
    ensures var plant := StartedPlant(cfg, nature, db);
            && Ready(agent, cfg, nature, plant)
            && plant.sim.step == 0
            && plant.sim.batterySOCPercent == 30.0
            && plant.db == db
            && plant.memory == RestoredMemory(db, cfg.deviceID)
  {
    hide *;
    SetMeans(agent, cfg, nature);
    StartedPlantIsSound(agent, cfg, nature, db);
    StartParts(cfg, nature, db);
    ReadyFrom(agent, cfg, nature, StartedPlant(cfg, nature, db));
  }

  lemma ReadyFrom(agent: Agent, cfg: Config, nature: Nature, plant: Plant)
    requires PlantSound(agent, cfg, nature, plant) && Seasoned(plant.sim)
    ensures Ready(agent, cfg, nature, plant)
  {
    hide PlantSound, Seasoned;
  }

  lemma EmptyRestores(cfg: Config)
    ensures Intact(EMPTY_DATABASE) && Restored(cfg, EMPTY_DATABASE) == cfg
    ensures RestoredMemory(EMPTY_DATABASE, cfg.deviceID).state.updatedAt.IsZero()
    ensures EMPTY_DATABASE.telemetry.Keys == {}
  {
  }

  /** What a restart reads off a plant that stopped after an accepted event. */
  lemma StoppedRestores(agent: Agent, cfg: Config, nature: Nature, plant: Plant, later: Config)
    requires Ready(agent, cfg, nature, plant) && agent.deviceID == cfg.deviceID == later.deviceID && later.Valid()
    requires plant.memory.state.batterySOCPercent == 30.0 && later.startingBatterySOCPercent == 30.0
    ensures Intact(plant.db) && Restored(later, plant.db) == later
    ensures RestoredMemory(plant.db, later.deviceID) == plant.memory
  {
    RestoredShape(plant.db, agent.deviceID);
    RestoredConfigIsValid(later, plant.db);
    hide Poised, Seasoned, Intact, Restored, RestoredMemory, Config.Valid;
  }

  /** The jump, in any weather and without any fault: the first interval discharges the battery from 30 to 20
      percent, the reserve. A run that goes on idles from there. A run that is stopped and starts again for
      the second interval starts from 30 percent, and discharges once more. */
  lemma RestartRefillsTheBattery(agent: Agent, hp: HealthPolicy, nature: Nature, one: Tick, two: Tick)
    requires Wired(agent, Hourly([])) && nature.Lawful() && nature.NamesApart()
    requires Calm(one) && Calm(two)
    ensures agent.policy.Valid() && Restored(Later(Hourly([])), EMPTY_DATABASE).batteryCapacityKWh > 0.0
    ensures var cfg := Hourly([]);
            var start := StartedPlant(cfg, nature, EMPTY_DATABASE);
            var first := PlantLoop(agent, hp, cfg, nature, start, [one]);
            var through := PlantLoop(agent, hp, cfg, nature, start, [one, two]);
            && start.sim.batterySOCPercent == 30.0
            && first.ending.Running? && first.plant.sim.batterySOCPercent == 20.0
            && |through.applied| == 2
            && through.applied[0].before == 30.0 && through.applied[0].after == 20.0
            && through.applied[1].before == 20.0 && through.applied[1].after == 20.0
            && Restored(Later(cfg), first.plant.db).startingBatterySOCPercent == 30.0
            && Restored(Later(cfg), first.plant.db).batteryCapacityKWh > 0.0
            && var again := PlantLoop(agent, hp, Restored(Later(cfg), first.plant.db), nature,
                                      StartedPlant(Later(cfg), nature, first.plant.db), [two]);
               |again.applied| == 1 && again.applied[0].before == 30.0 && again.applied[0].after == 20.0
  {
    hide *;
    var cfg, later := Hourly([]), Later(Hourly([]));
    HourlyNames(agent, nature);
    SetMeans(agent, cfg, nature);
    SetMeans(agent, later, nature);
    PolicyIsValid(agent, cfg);
    PolicyIsValid(agent, later);
    EmptyRestores(cfg);
    EmptyRestores(later);
    StartedReady(agent, cfg, nature, EMPTY_DATABASE);
    var start := StartedPlant(cfg, nature, EMPTY_DATABASE);
    FreshDraw(agent, hp, cfg, nature, start, one);
    var first := PlantInterval(agent, hp, cfg, nature, start, one);
    FreshIdle(agent, hp, cfg, nature, first.plant, two);
    StoppedRestores(agent, cfg, nature, first.plant, later);
    StartedReady(agent, later, nature, first.plant.db);
    FreshDraw(agent, hp, later, nature, StartedPlant(later, nature, first.plant.db), two);
    OneInterval(agent, hp, cfg, nature, start, one);
    TwoIntervals(agent, hp, cfg, nature, start, one, two);
    OneInterval(agent, hp, later, nature, StartedPlant(later, nature, first.plant.db), two);
  }

  lemma OneInterval(agent: Agent, hp: HealthPolicy, cfg: Config, nature: Nature, plant: Plant, one: Tick)
    requires agent.policy.Valid() && cfg.batteryCapacityKWh > 0.0
    ensures var first := PlantInterval(agent, hp, cfg, nature, plant, one);
            var e := PlantLoop(agent, hp, cfg, nature, plant, [one]);
            e.applied == first.applied && e.plant == first.plant && e.ending == first.ending
  {
    PlantLoopUnfolds(agent, hp, cfg, nature, plant, [one]);
    PlantLoopUnfolds(agent, hp, cfg, nature, PlantInterval(agent, hp, cfg, nature, plant, one).plant, [one][1..]);
    hide PlantLoop, PlantInterval;
  }

  lemma TwoIntervals(
    agent: Agent, hp: HealthPolicy, cfg: Config, nature: Nature, plant: Plant, one: Tick, two: Tick)
    requires agent.policy.Valid() && cfg.batteryCapacityKWh > 0.0
    ensures var first := PlantInterval(agent, hp, cfg, nature, plant, one);
            first.ending.Running? ==>
              PlantLoop(agent, hp, cfg, nature, plant, [one, two]).applied
              == first.applied + PlantInterval(agent, hp, cfg, nature, first.plant, two).applied
  {
    var first := PlantInterval(agent, hp, cfg, nature, plant, one);
    PlantLoopUnfolds(agent, hp, cfg, nature, plant, [one, two]);
    assert [one, two][1..] == [two];
    OneInterval(agent, hp, cfg, nature, first.plant, two);
    hide PlantLoop, PlantInterval;
  }
}
