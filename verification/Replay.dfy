/** Order of delivery, restarts and replays: what the database ends up holding depends on which
    events arrived, not on how the program got to see them. */
module Replay {
  import opened Basics
  import opened Observations
  import opened LatestState
  import opened Health
  import opened Classifier
  import opened Contracts
  import opened Storage
  import opened Integrity
  import opened Runtime
  import opened Safety
  import opened Progress

  // ---------------------------------------------------------------------------------------------
  // Restart

  lemma LoopSplits(agent: Agent, hp: HealthPolicy, memory: Memory, db: Database, xs: seq<Step>, ys: seq<Step>)
    requires agent.policy.Valid()
    ensures var e := Loop(agent, hp, memory, db, xs);
            Loop(agent, hp, memory, db, xs + ys) ==
            if e.ending.Running? then Then(e, Loop(agent, hp, e.memory, e.db, ys)) else e
    decreases |xs|
  {
    if xs == [] {
      assert xs + ys == ys;
      NothingDone(agent, hp, memory, db, ys);
      assert ys[0..] == ys;
    } else {
      var first := Interval(agent, hp, memory, db, xs[0]);
      assert (xs + ys)[0] == xs[0] && (xs + ys)[1..] == xs[1..] + ys;
      if first.ending.Running? {
        LoopSplits(agent, hp, first.memory, first.db, xs[1..], ys);
        var mid := Loop(agent, hp, first.memory, first.db, xs[1..]);
        ThenAssociative(first, mid, Loop(agent, hp, mid.memory, mid.db, ys));
      }
    }
    hide Interval;
  }

  /** The same agent under another interval bound. */
  function WithBound(agent: Agent, bound: int): Agent {
    agent.(maxIntervals := bound)
  }

  lemma LoopIgnoresBound(agent: Agent, bound: int, hp: HealthPolicy, memory: Memory, db: Database, script: seq<Step>)
    requires agent.policy.Valid()
    ensures Loop(WithBound(agent, bound), hp, memory, db, script) == Loop(agent, hp, memory, db, script)
    decreases |script|
  {
    if script != [] {
      var first := Interval(agent, hp, memory, db, script[0]);
      IntervalIgnoresBound(agent, bound, hp, memory, db, script[0]);
      LoopIgnoresBound(agent, bound, hp, first.memory, first.db, script[1..]);
    }
    hide Interval;
  }

  lemma IntervalIgnoresBound(agent: Agent, bound: int, hp: HealthPolicy, memory: Memory, db: Database, step: Step)
    requires agent.policy.Valid()
    ensures Interval(WithBound(agent, bound), hp, memory, db, step) == Interval(agent, hp, memory, db, step)
  {
    hide Classify, Commit, Input;
  }

  // ---------------------------------------------------------------------------------------------
  // What a run hears

  predicate StopsCleanly(fate: Fate) {
    fate.Cancelled? || fate.Exhausted?
  }

  function UntilStopped(script: seq<Step>): seq<Step> {
    if script == [] || StopsCleanly(script[0].fate) then [] else [script[0]] + UntilStopped(script[1..])
  }

  /** The intervals a run gets observations from: up to its bound, a cancellation or the end of the
      source. */
  function Heard(agent: Agent, script: seq<Step>): seq<Step> {
    UntilStopped(Bounded(agent, script))
  }

  /** A run that is still going, has finished its intervals, or was stopped cleanly. */
  predicate Well(ending: Ending) {
    ending.Running? || ending.Finished? || ending.CleanStop?
  }

  lemma CleanStopsAreOrdered(agent: Agent, hp: HealthPolicy, memory: Memory, db: Database, step: Step)
    requires agent.policy.Valid()
    ensures var e := Interval(agent, hp, memory, db, step);
            && (StopsCleanly(step.fate) ==> e == NoEffect(memory, db, CleanStop))
            && (StopsCleanly(step.fate) ==> !e.ending.Running?)
            && NoEffect(memory, db, Running).(ending := CleanStop) == NoEffect(memory, db, CleanStop)
            && (!StopsCleanly(step.fate) && Well(e.ending) ==> e.ending.Running?)
  {
    hide Classify, Commit, Proposal, Settled, BuildRecord, RecordedBy, DispatchOf;
  }

  /** A loop ends well exactly when the loop over the intervals it heard runs on, and then has its effect. */
  lemma {:induction false} LoopHears(
    agent: Agent, hp: HealthPolicy, memory: Memory, db: Database, script: seq<Step>)
    requires agent.policy.Valid()
    ensures var heard := Loop(agent, hp, memory, db, UntilStopped(script));
            var e := Loop(agent, hp, memory, db, script);
            && (Well(e.ending) <==> heard.ending.Running?)
            && (Well(e.ending) ==> e == heard.(ending := e.ending))
    decreases |script|
  {
    hide *;
    UntilStoppedUnfolds(script);
    LoopStops(agent, hp, memory, db);
    RunsWell();
    if script != [] {
      var first := Interval(agent, hp, memory, db, script[0]);
      CleanStopsAreOrdered(agent, hp, memory, db, script[0]);
      LoopGoesOn(agent, hp, memory, db, script);
      if !StopsCleanly(script[0].fate) {
        LoopGoesOn(agent, hp, memory, db, UntilStopped(script));
        LoopHears(agent, hp, first.memory, first.db, script[1..]);
        ThenEnds(first, Loop(agent, hp, first.memory, first.db, UntilStopped(script[1..])));
      }
    }
  }

  lemma RunsWell()
    ensures Well(Running) && Well(CleanStop)
  {
  }

  lemma UntilStoppedUnfolds(script: seq<Step>)
    ensures script == [] || StopsCleanly(script[0].fate) ==> UntilStopped(script) == []
    ensures script != [] && !StopsCleanly(script[0].fate) ==>
              && UntilStopped(script) != []
              && UntilStopped(script)[0] == script[0]
              && UntilStopped(script)[1..] == UntilStopped(script[1..])
  {
    hide StopsCleanly;
  }

  lemma ThenEnds(first: Effect, rest: Effect)
    ensures forall ending :: Then(first, rest.(ending := ending)) == Then(first, rest).(ending := ending)
    ensures Then(first, rest).ending == rest.ending
  {
  }

  function DefaultPolicy(agent: Agent): Result<HealthPolicy> {
    NewHealthPolicy(agent.policy.interval, 0, 0)
  }

  /** A run ends well exactly when it gets to its loop and the loop over what it heard runs on. */
  lemma RunHears(agent: Agent, db: Database, script: seq<Step>)
    requires agent.policy.Valid()
    ensures Well(Run(agent, db, script).ending) ==> !Blank(agent.deviceID) && DefaultPolicy(agent).Ok?
    ensures !Blank(agent.deviceID) && DefaultPolicy(agent).Ok? ==>
              var heard := Loop(agent, DefaultPolicy(agent).value, RestoredMemory(db, agent.deviceID), db,
                                Heard(agent, script));
              var e := Run(agent, db, script);
              && (Well(e.ending) <==> heard.ending.Running?)
              && (Well(e.ending) ==> e == heard.(ending := e.ending))
  {
    if !Blank(agent.deviceID) && DefaultPolicy(agent).Ok? {
      LoopHears(agent, DefaultPolicy(agent).value, RestoredMemory(db, agent.deviceID), db, Bounded(agent, script));
    }
    hide Loop, NewHealthPolicy, Blank, SnapshotOf, UntilStopped;
  }

  /** Restart equivalence for a source that does not listen. A run that is stopped cleanly, finishes its
      interval count or is still going, followed by a run from storage over whatever comes next, under any
      bound, gives the same database, the same records and the same commands as one run over what the first
      heard and what comes next, under the sum of both counts. */
  lemma RestartIsInvisible(agent: Agent, db: Database, xs: seq<Step>, ys: seq<Step>, more: int)
    requires agent.policy.Valid() && Intact(db)
    requires Well(Run(agent, db, xs).ending)
    ensures var e := Run(agent, db, xs);
            var heard := Heard(agent, xs);
            Run(WithBound(agent, if more <= 0 then 0 else |heard| + more), db, heard + ys)
            == Then(e, Run(WithBound(agent, more), e.db, ys))
  {
    hide *;
    var memory := RestoredMemory(db, agent.deviceID);
    var heard := Heard(agent, xs);
    var total := if more <= 0 then 0 else |heard| + more;
    var rest := Bounded(WithBound(agent, more), ys);
    RunHears(agent, db, xs);
    var hp := DefaultPolicy(agent).value;
    var e := Loop(agent, hp, memory, db, heard);
    BoundsAdd(agent, heard, ys, more);
    RunUnderBound(agent, total, db, heard + ys);
    RunUnderBound(agent, more, e.db, ys);
    RestoredRefines(db, agent.deviceID);
    LoopIsSafe(agent, hp, memory, db, heard);
    SafeMemory(agent, db, e);
    LoopSplits(agent, hp, memory, db, heard, rest);
    LoopIgnoresBound(agent, total, hp, memory, db, heard + rest);
    LoopIgnoresBound(agent, more, hp, e.memory, e.db, rest);
    ThenEnds(e, Loop(agent, hp, e.memory, e.db, rest));
    FirstEnding(e, Run(agent, db, xs).ending);
  }

  lemma FirstEnding(e: Effect, ending: Ending)
    ensures forall rest :: Then(e.(ending := ending), rest) == Then(e, rest)
  {
  }

  lemma RunUnderBound(agent: Agent, bound: int, db: Database, script: seq<Step>)
    requires agent.policy.Valid() && !Blank(agent.deviceID) && DefaultPolicy(agent).Ok?
    ensures WithBound(agent, bound).policy.Valid()
    ensures Run(WithBound(agent, bound), db, script) ==
            var e := Loop(WithBound(agent, bound), DefaultPolicy(agent).value, RestoredMemory(db, agent.deviceID), db,
                          Bounded(WithBound(agent, bound), script));
            if e.ending.Running? && 0 < bound <= |script| then e.(ending := Finished) else e
  {
    hide Loop, NewHealthPolicy, Blank, SnapshotOf, Bounded;
  }

  lemma BoundsAdd(agent: Agent, heard: seq<Step>, ys: seq<Step>, more: int)
    ensures Bounded(WithBound(agent, if more <= 0 then 0 else |heard| + more), heard + ys)
            == heard + Bounded(WithBound(agent, more), ys)
  {
  }

  // ---------------------------------------------------------------------------------------------
  // What arrivals leave behind

  /** The part of the database that arrivals decide: the stored events and one device's latest row. */
  datatype View = View(events: map<string, Telemetry>, row: Option<State>)

  function ViewOf(db: Database, deviceID: string): View {
    View(map id | id in db.telemetry :: db.telemetry[id].event,
         if deviceID in db.latest then Some(db.latest[deviceID]) else None)
  }

  function Absorb(v: View, e: Telemetry): View {
    if e.eventID in v.events then v
    else
      View(v.events[e.eventID := e],
           if v.row.None? || e.eventTime.After(v.row.value.updatedAt) then Some(StateOf(e)) else v.row)
  }

  function AbsorbAll(v: View, arrivals: seq<Telemetry>): View
    decreases |arrivals|
  {
    if arrivals == [] then v else AbsorbAll(Absorb(v, arrivals[0]), arrivals[1..])
  }

  /** The well-formed events of a script, in order of arrival. */
  function Arrivals(script: seq<Step>): seq<Telemetry> {
    if script == [] then []
    else (if EventOf(script[0].envelope).Some? then [EventOf(script[0].envelope).value] else []) + Arrivals(script[1..])
  }

  lemma IntervalAbsorbs(agent: Agent, hp: HealthPolicy, memory: Memory, db: Database, step: Step)
    requires agent.policy.Valid() && Intact(db) && Refines(memory, db, agent.deviceID)
    requires Interval(agent, hp, memory, db, step).ending.Running?
    ensures var e := Interval(agent, hp, memory, db, step);
            var v := ViewOf(db, agent.deviceID);
            ViewOf(e.db, agent.deviceID) ==
            match EventOf(step.envelope) case None => v case Some(event) => Absorb(v, event)
  {
    var p := Process(agent, hp, memory, db, step.envelope, step.now, FailureOf(step.fate));
    ProcessMeaning(agent, hp, memory, db, step.envelope, step.now, FailureOf(step.fate));
    IntervalCases(agent, hp, memory, db, step);
    hide *;
    RunningDelivery(agent, db, p, step);
    if p.processed.status.CommitDuplicate? {
      DuplicateAbsorbs(db, agent.deviceID, EventOf(step.envelope).value);
    } else {
      StoredAbsorbs(agent, memory, db, step.envelope, step.now, p.db, p.processed.outcome);
    }
  }

  lemma RunningDelivery(agent: Agent, db: Database, p: Processing, step: Step)
    requires Delivered(agent, db, p, step).ending.Running?
    requires p.processed.Unprocessed? ==> !p.processed.ending.Running?
    ensures p.processed.Committed?
    ensures Delivered(agent, db, p, step).db == p.db
  {
  }

  lemma DuplicateAbsorbs(db: Database, deviceID: string, e: Telemetry)
    requires e.eventID in db.telemetry
    ensures Absorb(ViewOf(db, deviceID), e) == ViewOf(db, deviceID)
  {
  }

  lemma StoredAbsorbs(
    agent: Agent, memory: Memory, db: Database, envelope: Option<Envelope>, now: Time, after: Database, o: Outcome)
    requires agent.policy.Valid() && Intact(db) && Refines(memory, db, agent.deviceID)
    requires StoresObservation(agent, memory.state, db, envelope, now, after, o)
    ensures var v := ViewOf(db, agent.deviceID);
            ViewOf(after, agent.deviceID) ==
            match EventOf(envelope) case None => v case Some(event) => Absorb(v, event)
  {
    RestoredShape(db, agent.deviceID);
    if EventOf(envelope).Some? {
      var e := EventOf(envelope).value;
      InsertedView(db, after, agent.deviceID, e, after.telemetry[e.eventID], Supersedes(e, memory.state));
    }
    hide Intact, EventOf, RestoredMemory, ViewOf;
  }

  lemma InsertedView(
    db: Database, after: Database, deviceID: string, e: Telemetry, record: TelemetryRecord, supersedes: bool)
    requires record.event == e
    requires after.telemetry == db.telemetry[e.eventID := record]
    requires after.latest == if supersedes then db.latest[deviceID := StateOf(e)] else db.latest
    ensures var v := ViewOf(db, deviceID);
            ViewOf(after, deviceID) ==
            View(v.events[e.eventID := e], if supersedes then Some(StateOf(e)) else v.row)
    ensures e.eventID in ViewOf(db, deviceID).events <==> e.eventID in db.telemetry
    ensures ViewOf(db, deviceID).row.Some? <==> deviceID in db.latest
    ensures deviceID in db.latest ==> ViewOf(db, deviceID).row.value == db.latest[deviceID]
  {
    var v := ViewOf(db, deviceID);
    assert ViewOf(after, deviceID).events == v.events[e.eventID := e];
  }

  lemma {:induction false} LoopAbsorbs(
    agent: Agent, hp: HealthPolicy, memory: Memory, db: Database, script: seq<Step>)
    requires agent.policy.Valid() && Intact(db) && Refines(memory, db, agent.deviceID)
    requires Loop(agent, hp, memory, db, script).ending.Running?
    ensures ViewOf(Loop(agent, hp, memory, db, script).db, agent.deviceID)
            == AbsorbAll(ViewOf(db, agent.deviceID), Arrivals(script))
    decreases |script|
  {
    hide *;
    if script == [] {
      LoopStops(agent, hp, memory, db);
      NothingArrives(ViewOf(db, agent.deviceID));
    } else {
      var first := Interval(agent, hp, memory, db, script[0]);
      LoopGoesOn(agent, hp, memory, db, script);
      IntervalAbsorbs(agent, hp, memory, db, script[0]);
      IntervalStaysSafe(agent, hp, memory, db, script[0]);
      LoopAbsorbs(agent, hp, first.memory, first.db, script[1..]);
      AbsorbsFirst(ViewOf(db, agent.deviceID), script);
    }
  }

  lemma NothingArrives(v: View)
    ensures Arrivals([]) == [] && AbsorbAll(v, []) == v
  {
  }

  lemma AbsorbsFirst(v: View, script: seq<Step>)
    requires script != []
    ensures AbsorbAll(v, Arrivals(script)) ==
            AbsorbAll(match EventOf(script[0].envelope) case None => v case Some(event) => Absorb(v, event),
                      Arrivals(script[1..]))
  {
    var event := EventOf(script[0].envelope);
    if event.Some? {
      assert Arrivals(script) == [event.value] + Arrivals(script[1..]);
      assert ([event.value] + Arrivals(script[1..]))[1..] == Arrivals(script[1..]);
    } else {
      assert Arrivals(script) == Arrivals(script[1..]);
    }
    hide EventOf, Absorb;
  }

  // ---------------------------------------------------------------------------------------------
  // Delivery order

  predicate OneEventPerID(arrivals: seq<Telemetry>) {
    forall i, j :: 0 <= i < |arrivals| && 0 <= j < |arrivals| && arrivals[i].eventID == arrivals[j].eventID
      ==> arrivals[i] == arrivals[j]
  }

  predicate DistinctTimes(arrivals: seq<Telemetry>) {
    forall i, j :: 0 <= i < |arrivals| && 0 <= j < |arrivals| && arrivals[i].eventTime.ns == arrivals[j].eventTime.ns
      ==> arrivals[i] == arrivals[j]
  }

  /** `after` holds the old events and the arrivals, and the row is the newest of the old row and
      the events that are new to the store, the old row on a tie. */
  predicate Holds(before: View, arrivals: seq<Telemetry>, after: View) {
    && (forall id :: id in before.events ==> id in after.events && after.events[id] == before.events[id])
    && (forall i :: 0 <= i < |arrivals| ==> arrivals[i].eventID in after.events)
    && (forall i :: 0 <= i < |arrivals| && arrivals[i].eventID !in before.events
          ==> && after.events[arrivals[i].eventID] == arrivals[i]
              && after.row.Some?
              && after.row.value.updatedAt.ns >= arrivals[i].eventTime.ns)
    && (forall id :: id in after.events && id !in before.events ==>
          exists i :: 0 <= i < |arrivals| && arrivals[i].eventID == id)
    && (before.row.Some? ==> after.row.Some? && after.row.value.updatedAt.ns >= before.row.value.updatedAt.ns)
    && (after.row != before.row ==>
          && (before.row.Some? ==> after.row.Some? && after.row.value.updatedAt.ns > before.row.value.updatedAt.ns)
          && exists i :: 0 <= i < |arrivals| && arrivals[i].eventID !in before.events
                         && after.row == Some(StateOf(arrivals[i])))
  }

  lemma {:induction false} AbsorbAllHolds(v: View, arrivals: seq<Telemetry>)
    requires OneEventPerID(arrivals)
    ensures Holds(v, arrivals, AbsorbAll(v, arrivals))
    decreases |arrivals|
  {
    if arrivals != [] {
      var mid := Absorb(v, arrivals[0]);
      assert OneEventPerID(arrivals[1..]);
      AbsorbAllHolds(mid, arrivals[1..]);
      HoldsStep(v, arrivals, AbsorbAll(mid, arrivals[1..]));
    }
  }

  lemma HoldsStep(v: View, arrivals: seq<Telemetry>, after: View)
    requires arrivals != [] && OneEventPerID(arrivals)
    requires Holds(Absorb(v, arrivals[0]), arrivals[1..], after)
    ensures Holds(v, arrivals, after)
  {
    EventsStep(v, arrivals, after);
    RowStep(v, arrivals, after);
    hide Absorb, OneEventPerID;
  }

  lemma EventsStep(v: View, arrivals: seq<Telemetry>, after: View)
    requires arrivals != [] && OneEventPerID(arrivals)
    requires Holds(Absorb(v, arrivals[0]), arrivals[1..], after)
    ensures forall id :: id in v.events ==> id in after.events && after.events[id] == v.events[id]
    ensures forall i :: 0 <= i < |arrivals| ==> arrivals[i].eventID in after.events
    ensures forall i :: 0 <= i < |arrivals| && arrivals[i].eventID !in v.events ==>
              && after.events[arrivals[i].eventID] == arrivals[i]
              && after.row.Some?
              && after.row.value.updatedAt.ns >= arrivals[i].eventTime.ns
    ensures forall id :: id in after.events && id !in v.events ==>
              exists i :: 0 <= i < |arrivals| && arrivals[i].eventID == id
  {
    var mid := Absorb(v, arrivals[0]);
    forall i | 0 <= i < |arrivals|
      ensures arrivals[i].eventID in after.events
      ensures arrivals[i].eventID !in v.events ==>
                && after.events[arrivals[i].eventID] == arrivals[i]
                && after.row.Some?
                && after.row.value.updatedAt.ns >= arrivals[i].eventTime.ns
    {
      if 0 < i {
        assert arrivals[1..][i - 1] == arrivals[i];
      }
    }
    forall id | id in after.events && id !in v.events
      ensures exists i :: 0 <= i < |arrivals| && arrivals[i].eventID == id
    {
      if id in mid.events {
        assert arrivals[0].eventID == id;
      } else {
        var i :| 0 <= i < |arrivals[1..]| && arrivals[1..][i].eventID == id;
        assert arrivals[i + 1].eventID == id;
      }
    }
  }

  lemma RowStep(v: View, arrivals: seq<Telemetry>, after: View)
    requires arrivals != []
    requires Holds(Absorb(v, arrivals[0]), arrivals[1..], after)
    ensures v.row.Some? ==> after.row.Some? && after.row.value.updatedAt.ns >= v.row.value.updatedAt.ns
    ensures after.row != v.row ==>
              && (v.row.Some? ==> after.row.Some? && after.row.value.updatedAt.ns > v.row.value.updatedAt.ns)
              && exists i :: 0 <= i < |arrivals| && arrivals[i].eventID !in v.events
                             && after.row == Some(StateOf(arrivals[i]))
  {
    var mid := Absorb(v, arrivals[0]);
    if after.row != v.row {
      if after.row == mid.row {
        assert arrivals[0].eventID !in v.events && after.row == Some(StateOf(arrivals[0]));
      } else {
        var i := RowSource(mid, arrivals[1..], after);
        assert arrivals[i + 1] == arrivals[1..][i];
        assert arrivals[i + 1].eventID !in v.events && after.row == Some(StateOf(arrivals[i + 1]));
      }
    }
  }

  predicate SameArrivals(xs: seq<Telemetry>, ys: seq<Telemetry>) {
    && (forall i :: 0 <= i < |xs| ==> xs[i] in ys)
    && (forall i :: 0 <= i < |ys| ==> ys[i] in xs)
  }

  lemma HoldsIsUnique(v: View, xs: seq<Telemetry>, ys: seq<Telemetry>, a: View, b: View)
    requires OneEventPerID(xs) && DistinctTimes(xs)
    requires SameArrivals(xs, ys)
    requires Holds(v, xs, a) && Holds(v, ys, b)
    ensures a == b
  {
    hide Holds, SameArrivals;
    HoldsTransfers(v, ys, xs, b);
    EventsWithin(v, xs, a, b);
    EventsWithin(v, xs, b, a);
    assert a.events == b.events;
    SameRow(v, xs, a, b);
  }

  lemma EventsWithin(v: View, xs: seq<Telemetry>, a: View, b: View)
    requires Holds(v, xs, a) && Holds(v, xs, b)
    ensures forall id :: id in a.events ==> id in b.events && a.events[id] == b.events[id]
  {
    forall id | id in a.events
      ensures id in b.events && a.events[id] == b.events[id]
    {
      if id !in v.events {
        var i :| 0 <= i < |xs| && xs[i].eventID == id;
      }
    }
  }

  lemma HoldsTransfers(v: View, ys: seq<Telemetry>, xs: seq<Telemetry>, b: View)
    requires SameArrivals(xs, ys) && Holds(v, ys, b)
    ensures Holds(v, xs, b)
  {
    forall i | 0 <= i < |xs|
      ensures xs[i].eventID in b.events
      ensures xs[i].eventID !in v.events ==>
                && b.events[xs[i].eventID] == xs[i]
                && b.row.Some?
                && b.row.value.updatedAt.ns >= xs[i].eventTime.ns
    {
      assert xs[i] in ys;
      var j :| 0 <= j < |ys| && ys[j] == xs[i];
    }
    forall id | id in b.events && id !in v.events
      ensures exists i :: 0 <= i < |xs| && xs[i].eventID == id
    {
      var j :| 0 <= j < |ys| && ys[j].eventID == id;
      assert ys[j] in xs;
    }
    if b.row != v.row {
      var j :| 0 <= j < |ys| && ys[j].eventID !in v.events && b.row == Some(StateOf(ys[j]));
      assert ys[j] in xs;
      var i :| 0 <= i < |xs| && xs[i] == ys[j];
    }
  }

  lemma SameRow(v: View, xs: seq<Telemetry>, a: View, b: View)
    requires DistinctTimes(xs)
    requires Holds(v, xs, a) && Holds(v, xs, b)
    ensures a.row == b.row
  {
    if a.row != v.row {
      MovedRow(v, xs, a, b);
    } else if b.row != v.row {
      MovedRow(v, xs, b, a);
    }
    hide Holds, DistinctTimes;
  }

  /** If one view took its row from an arrival, so did the other, and from the same one. */
  lemma MovedRow(v: View, xs: seq<Telemetry>, a: View, b: View)
    requires DistinctTimes(xs)
    requires Holds(v, xs, a) && Holds(v, xs, b)
    requires a.row != v.row
    ensures b.row == a.row
  {
    hide DistinctTimes;
    var i := RowSource(v, xs, a);
    NewestArrival(v, xs, b, i);
    var j := RowSource(v, xs, b);
    NewestArrival(v, xs, a, j);
    SameTimeSameEvent(xs, i, j);
    hide Holds;
  }

  lemma RowSource(v: View, xs: seq<Telemetry>, a: View) returns (i: nat)
    requires Holds(v, xs, a) && a.row != v.row
    ensures i < |xs| && xs[i].eventID !in v.events && a.row == Some(StateOf(xs[i]))
    ensures v.row.Some? ==> xs[i].eventTime.ns > v.row.value.updatedAt.ns
  {
    i :| 0 <= i < |xs| && xs[i].eventID !in v.events && a.row == Some(StateOf(xs[i]));
  }

  lemma NewestArrival(v: View, xs: seq<Telemetry>, b: View, i: nat)
    requires Holds(v, xs, b) && i < |xs| && xs[i].eventID !in v.events
    requires v.row.Some? ==> xs[i].eventTime.ns > v.row.value.updatedAt.ns
    ensures b.row.Some? && b.row != v.row && b.row.value.updatedAt.ns >= xs[i].eventTime.ns
  {
  }

  lemma SameTimeSameEvent(xs: seq<Telemetry>, i: nat, j: nat)
    requires DistinctTimes(xs) && i < |xs| && j < |xs| && xs[i].eventTime.ns == xs[j].eventTime.ns
    ensures xs[i] == xs[j]
  {
  }

  /** Confluence: two runs on the same database that hear observations with the same set of events — in
      any order, repeated, at any clock readings — and go on, finish or stop cleanly, store the same
      events and end with the same latest row, the newest of them all. */
  lemma DeliveryOrderIsIrrelevant(agent: Agent, db: Database, xs: seq<Step>, ys: seq<Step>)
    requires agent.policy.Valid() && Intact(db)
    requires Well(Run(agent, db, xs).ending) && Well(Run(agent, db, ys).ending)
    requires SameArrivals(Arrivals(Heard(agent, xs)), Arrivals(Heard(agent, ys)))
    requires OneEventPerID(Arrivals(Heard(agent, xs))) && DistinctTimes(Arrivals(Heard(agent, xs)))
    ensures var v := ViewOf(Run(agent, db, xs).db, agent.deviceID);
            && v == ViewOf(Run(agent, db, ys).db, agent.deviceID)
            && Holds(ViewOf(db, agent.deviceID), Arrivals(Heard(agent, xs)), v)
  {
    hide *;
    RunAbsorbs(agent, db, xs);
    RunAbsorbs(agent, db, ys);
    var v := ViewOf(db, agent.deviceID);
    var first, second := Arrivals(Heard(agent, xs)), Arrivals(Heard(agent, ys));
    OnePerIDTransfers(first, second);
    AbsorbAllHolds(v, first);
    AbsorbAllHolds(v, second);
    HoldsIsUnique(v, first, second, AbsorbAll(v, first), AbsorbAll(v, second));
  }

  lemma OnePerIDTransfers(xs: seq<Telemetry>, ys: seq<Telemetry>)
    requires SameArrivals(xs, ys) && OneEventPerID(xs)
    ensures OneEventPerID(ys)
  {
    forall i, j | 0 <= i < |ys| && 0 <= j < |ys| && ys[i].eventID == ys[j].eventID
      ensures ys[i] == ys[j]
    {
      assert ys[i] in xs && ys[j] in xs;
      var k :| 0 <= k < |xs| && xs[k] == ys[i];
      var l :| 0 <= l < |xs| && xs[l] == ys[j];
    }
  }

  lemma RunAbsorbs(agent: Agent, db: Database, script: seq<Step>)
    requires agent.policy.Valid() && Intact(db)
    requires Well(Run(agent, db, script).ending)
    ensures ViewOf(Run(agent, db, script).db, agent.deviceID)
            == AbsorbAll(ViewOf(db, agent.deviceID), Arrivals(Heard(agent, script)))
  {
    hide *;
    RunHears(agent, db, script);
    RestoredRefines(db, agent.deviceID);
    LoopAbsorbs(agent, DefaultPolicy(agent).value, RestoredMemory(db, agent.deviceID), db, Heard(agent, script));
  }

  lemma RestoredRefines(db: Database, deviceID: string)
    ensures Refines(RestoredMemory(db, deviceID), db, deviceID)
  {
  }

  // ---------------------------------------------------------------------------------------------
  // Replay

  /** Every event of the script is already stored, and none is foreign. */
  predicate AllKnown(db: Database, deviceID: string, script: seq<Step>) {
    forall i :: 0 <= i < |script| ==>
      && !Foreign(deviceID, script[i].envelope)
      && (EventOf(script[i].envelope).Some? ==> EventOf(script[i].envelope).value.eventID in db.telemetry)
  }

  predicate SameButHealth(a: Database, b: Database) {
    a.telemetry == b.telemetry && a.latest == b.latest && a.commands == b.commands
  }

  /** The effect of going over known events again. */
  predicate NothingNew(db: Database, script: seq<Step>, e: Effect) {
    && SameButHealth(e.db, db)
    && e.sent == []
    && e.applies == |script|
    && |e.records| == |script|
    && (forall i :: 0 <= i < |script| && EventOf(script[i].envelope).Some? ==>
          && e.records[i].disposition.Duplicate?
          && !e.records[i].storedHistory
          && !e.records[i].stateUpdated)
    && ((forall i :: 0 <= i < |script| ==> EventOf(script[i].envelope).Some?) ==> e.db == db)
  }

  lemma IntervalReplays(agent: Agent, hp: HealthPolicy, memory: Memory, db: Database, step: Step)
    requires agent.policy.Valid() && !Blank(agent.deviceID)
    requires Intact(db) && Refines(memory, db, agent.deviceID)
    requires step.fate.Completes? && step.now.Durable()
    requires AllKnown(db, agent.deviceID, [step])
    ensures Interval(agent, hp, memory, db, step).ending.Running?
    ensures NothingNew(db, [step], Interval(agent, hp, memory, db, step))
  {
    assert [step][0] == step;
    var p := Process(agent, hp, memory, db, step.envelope, step.now, FailureOf(step.fate));
    hide *;
    KnownStep(db, agent.deviceID, step);
    ProcessMeaning(agent, hp, memory, db, step.envelope, step.now, FailureOf(step.fate));
    IntervalCases(agent, hp, memory, db, step);
    IntervalContinues(agent, hp, memory, db, step);
    ReplayedDelivery(agent, memory, db, p, step);
  }

  lemma KnownStep(db: Database, deviceID: string, step: Step)
    requires AllKnown(db, deviceID, [step])
    ensures !Foreign(deviceID, step.envelope)
    ensures EventOf(step.envelope).Some? ==> EventOf(step.envelope).value.eventID in db.telemetry
  {
    assert [step][0] == step;
    hide Foreign, EventOf;
  }

  lemma ReplayedDelivery(agent: Agent, memory: Memory, db: Database, p: Processing, step: Step)
    requires agent.policy.Valid() && step.fate.Completes?
    requires Delivered(agent, db, p, step).ending.Running?
    requires p.processed.Unprocessed? ==> !p.processed.ending.Running?
    requires EventOf(step.envelope).Some? ==> EventOf(step.envelope).value.eventID in db.telemetry
    requires p.processed.Committed? ==>
               && (p.processed.status.CommitDuplicate?
                   <==> EventOf(step.envelope).Some? && EventOf(step.envelope).value.eventID in db.telemetry)
               && (p.processed.status.CommitDuplicate? ==>
                     && p.db == db
                     && p.processed.outcome ==
                        Outcome(Duplicate, AlreadyProcessed, EventOf(step.envelope), false, false, memory.health, None))
               && (p.processed.status.CommitStored? ==>
                     StoresObservation(agent, memory.state, db, step.envelope, step.now, p.db, p.processed.outcome))
    ensures NothingNew(db, [step], Delivered(agent, db, p, step))
  {
    assert [step][0] == step;
    hide EventOf;
  }

  lemma {:induction false} LoopReplays(
    agent: Agent, hp: HealthPolicy, memory: Memory, db: Database, script: seq<Step>)
    requires agent.policy.Valid() && !Blank(agent.deviceID)
    requires Intact(db) && Refines(memory, db, agent.deviceID)
    requires Undisturbed(script) && AllKnown(db, agent.deviceID, script)
    ensures Loop(agent, hp, memory, db, script).ending.Running?
    ensures NothingNew(db, script, Loop(agent, hp, memory, db, script))
    decreases |script|
  {
    if script == [] {
    } else {
      var first := Interval(agent, hp, memory, db, script[0]);
      var rest := Loop(agent, hp, first.memory, first.db, script[1..]);
      hide *;
      UndisturbedParts(db, agent.deviceID, script);
      LoopGoesOn(agent, hp, memory, db, script);
      IntervalReplays(agent, hp, memory, db, script[0]);
      IntervalStaysSafe(agent, hp, memory, db, script[0]);
      KnownStays(db, first, agent.deviceID, script);
      LoopReplays(agent, hp, first.memory, first.db, script[1..]);
      NothingNewComposes(db, script, first, rest);
    }
  }

  lemma UndisturbedParts(db: Database, deviceID: string, script: seq<Step>)
    requires script != [] && Undisturbed(script) && AllKnown(db, deviceID, script)
    ensures script[0].fate.Completes? && script[0].now.Durable()
    ensures Undisturbed(script[1..])
    ensures AllKnown(db, deviceID, [script[0]])
  {
    UndisturbedTail(script);
    hide EventOf, Foreign, Undisturbed;
  }

  lemma KnownStays(db: Database, first: Effect, deviceID: string, script: seq<Step>)
    requires script != [] && AllKnown(db, deviceID, script)
    requires NothingNew(db, [script[0]], first)
    ensures AllKnown(first.db, deviceID, script[1..])
  {
    hide EventOf, Foreign;
  }

  lemma NothingNewComposes(db: Database, script: seq<Step>, first: Effect, rest: Effect)
    requires script != []
    requires NothingNew(db, [script[0]], first)
    requires NothingNew(first.db, script[1..], rest)
    ensures NothingNew(db, script, Then(first, rest))
  {
    assert [script[0]][0] == script[0];
    var records := first.records + rest.records;
    forall i | 0 <= i < |script| && EventOf(script[i].envelope).Some?
      ensures records[i].disposition.Duplicate? && !records[i].storedHistory && !records[i].stateUpdated
    {
      if 0 < i {
        assert script[1..][i - 1] == script[i];
        assert records[i] == rest.records[i - 1];
      } else {
        assert records[0] == first.records[0];
      }
    }
    if forall i :: 0 <= i < |script| ==> EventOf(script[i].envelope).Some? {
      assert forall i :: 0 <= i < |[script[0]]| ==> EventOf([script[0]][i].envelope).Some?;
      assert forall i :: 0 <= i < |script[1..]| ==> EventOf(script[1..][i].envelope).Some? by {
        forall i | 0 <= i < |script[1..]| ensures EventOf(script[1..][i].envelope).Some? {
          assert script[1..][i] == script[i + 1];
        }
      }
    }
    hide EventOf;
  }

  /** Every observation of the second script occurs in the first. */
  predicate Repeats(xs: seq<Step>, ys: seq<Step>) {
    forall j :: 0 <= j < |ys| ==> exists i :: 0 <= i < |xs| && xs[i].envelope == ys[j].envelope
  }

  lemma {:induction false} ArrivalOf(script: seq<Step>, i: nat)
    requires i < |script| && EventOf(script[i].envelope).Some?
    ensures EventOf(script[i].envelope).value in Arrivals(script)
    decreases |script|
  {
    if 0 < i {
      ArrivalOf(script[1..], i - 1);
    }
    hide EventOf;
  }

  lemma {:induction false} AbsorbedIsKnown(v: View, arrivals: seq<Telemetry>)
    ensures forall id :: id in v.events ==> id in AbsorbAll(v, arrivals).events
    ensures forall i :: 0 <= i < |arrivals| ==> arrivals[i].eventID in AbsorbAll(v, arrivals).events
    decreases |arrivals|
  {
    if arrivals != [] {
      AbsorbedIsKnown(Absorb(v, arrivals[0]), arrivals[1..]);
      forall i | 1 <= i < |arrivals| ensures arrivals[i].eventID in AbsorbAll(v, arrivals).events {
        assert arrivals[1..][i - 1] == arrivals[i];
      }
    }
  }

  /** After an undisturbed run, everything it observed is known. */
  lemma ObservedIsKnown(agent: Agent, db: Database, xs: seq<Step>, steps: seq<Step>)
    requires agent.policy.Valid() && Intact(db)
    requires Well(Run(agent, db, xs).ending) && Undisturbed(Heard(agent, xs))
    requires Repeats(Heard(agent, xs), steps)
    ensures AllKnown(Run(agent, db, xs).db, agent.deviceID, steps)
  {
    hide *;
    var heard := Heard(agent, xs);
    var v := ViewOf(Run(agent, db, xs).db, agent.deviceID);
    RunHears(agent, db, xs);
    RestoredRefines(db, agent.deviceID);
    NoObservationStopsTheLoop(agent, DefaultPolicy(agent).value, RestoredMemory(db, agent.deviceID), db, heard);
    RunAbsorbs(agent, db, xs);
    AbsorbedIsKnown(ViewOf(db, agent.deviceID), Arrivals(heard));
    ViewNames(Run(agent, db, xs).db, agent.deviceID);
    forall i | 0 <= i < |heard|
      ensures EventOf(heard[i].envelope).Some? ==> EventOf(heard[i].envelope).value.eventID in v.events
    {
      if EventOf(heard[i].envelope).Some? {
        ArrivalOf(heard, i);
      }
    }
    RepeatsAreKnown(Run(agent, db, xs).db, agent.deviceID, heard, steps);
  }

  lemma ViewNames(db: Database, deviceID: string)
    ensures forall id :: id in ViewOf(db, deviceID).events <==> id in db.telemetry
  {
  }

  lemma RepeatsAreKnown(db: Database, deviceID: string, heard: seq<Step>, steps: seq<Step>)
    requires Repeats(heard, steps)
    requires forall i :: 0 <= i < |heard| ==>
               && !Foreign(deviceID, heard[i].envelope)
               && (EventOf(heard[i].envelope).Some? ==> EventOf(heard[i].envelope).value.eventID in db.telemetry)
    ensures AllKnown(db, deviceID, steps)
  {
    forall j | 0 <= j < |steps|
      ensures !Foreign(deviceID, steps[j].envelope)
      ensures EventOf(steps[j].envelope).Some? ==> EventOf(steps[j].envelope).value.eventID in db.telemetry
    {
      var i :| 0 <= i < |heard| && heard[i].envelope == steps[j].envelope;
    }
    hide EventOf, Foreign;
  }

  /** Replay idempotence: after a run that went on, finished or stopped cleanly, a second run over any of
      its observations, in any order, any number of times and at any clock readings, adds no event, no
      command and no state, reports every event as a duplicate and delivers nothing to the battery; if
      every observation carried an event, the database does not change at all. */
  lemma ReplayChangesNothing(agent: Agent, db: Database, xs: seq<Step>, ys: seq<Step>)
    requires agent.policy.Valid() && Intact(db)
    requires Well(Run(agent, db, xs).ending) && Undisturbed(Heard(agent, xs))
    requires Undisturbed(Heard(agent, ys)) && Repeats(Heard(agent, xs), Heard(agent, ys))
    ensures var db' := Run(agent, db, xs).db;
            var again := Run(agent, db', ys);
            Well(again.ending) && NothingNew(db', Heard(agent, ys), again)
  {
    var db' := Run(agent, db, xs).db;
    hide *;
    RunHears(agent, db, xs);
    ObservedIsKnown(agent, db, xs, Heard(agent, ys));
    RunIsSafe(agent, db, xs);
    RunHears(agent, db', ys);
    RestoredRefines(db', agent.deviceID);
    LoopReplays(agent, DefaultPolicy(agent).value, RestoredMemory(db', agent.deviceID), db', Heard(agent, ys));
    var heard := Loop(agent, DefaultPolicy(agent).value, RestoredMemory(db', agent.deviceID), db', Heard(agent, ys));
    EndingDoesNotMatter(db', Heard(agent, ys), heard);
  }

  lemma EndingDoesNotMatter(db: Database, script: seq<Step>, e: Effect)
    ensures forall ending :: NothingNew(db, script, e.(ending := ending)) <==> NothingNew(db, script, e)
  {
    hide EventOf, SameButHealth;
  }
}
