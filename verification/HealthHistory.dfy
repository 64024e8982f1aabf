/** Device health over whole runs. */
module HealthHistory {
  import opened Basics
  import opened Observations
  import opened LatestState
  import opened Health
  import opened Classifier
  import opened Storage
  import opened Integrity
  import opened Runtime
  import opened Safety
  import opened Progress

  /** A stored observation leaves the classifier's verdict in memory and in the report; a duplicate
      leaves health as it was. */
  lemma ProcessHealth(
    agent: Agent, hp: HealthPolicy, memory: Memory, db: Database, envelope: Option<Envelope>, now: Time,
    failure: Failure)
    requires agent.policy.Valid()
    ensures var p := Process(agent, hp, memory, db, envelope, now, failure);
            var classification := Classify(Input(memory, hp, agent.policy.interval, envelope, now));
            && (p.processed.Unprocessed? ==> p.memory == memory && !p.processed.ending.Running?)
            && (p.processed.Committed? ==>
                  && classification.Classified?
                  && p.processed.outcome.health == p.memory.health
                  && (if p.processed.status.CommitDuplicate? then
                        p.memory == memory && p.processed.outcome.disposition.Duplicate?
                      else
                        && p.memory.health == classification.result.health
                        && p.processed.outcome.disposition == classification.result.disposition
                        && p.memory.state ==
                           (if classification.result.state.Some? then classification.result.state.value
                            else memory.state)))
  {
    hide Classify, Commit, Proposal, DecidedCommand;
  }

  // ---------------------------------------------------------------------------------------------
  // Invalid sticks

  /** What one interval's record, if it wrote one, says about the memory it leaves. */
  predicate Reports(e: Effect, memory: Memory) {
    && |e.records| <= 1
    && (e.ending.Running? ==> |e.records| == 1)
    && (|e.records| == 1 ==>
          && e.ending.Running?
          && e.records[0].healthStatus == e.memory.health.status
          && (e.records[0].disposition.Rejected? ==> e.memory.health.status.Invalid?)
          && (memory.health.status.Invalid?
              && !e.records[0].disposition.Accepted?
              && !e.records[0].healthStatus.Offline?
              ==> e.records[0].healthStatus.Invalid?))
  }

  lemma IntervalReports(agent: Agent, hp: HealthPolicy, memory: Memory, db: Database, step: Step)
    requires agent.policy.Valid()
    ensures Reports(Interval(agent, hp, memory, db, step), memory)
  {
    var p := Process(agent, hp, memory, db, step.envelope, step.now, FailureOf(step.fate));
    ProcessHealth(agent, hp, memory, db, step.envelope, step.now, FailureOf(step.fate));
    IntervalCases(agent, hp, memory, db, step);
    InvalidSticksOnce(Input(memory, hp, agent.policy.interval, step.envelope, step.now));
    hide Process, Classify, Interval;
  }

  lemma InvalidSticksOnce(input: ClassifyInput)
    ensures Classify(input).Classified? ==>
            var r := Classify(input).result;
            && (r.disposition.Rejected? ==> r.health.status.Invalid?)
            && (input.priorHealth.status.Invalid? && !r.disposition.Accepted? && !r.health.status.Offline?
                ==> r.health.status.Invalid?)
  {
  }

  /** Nothing in a stretch of records resolves an invalid status. */
  predicate Unresolved(records: seq<Record>, from: int, to: int)
    requires 0 <= from && to <= |records|
  {
    forall j :: from <= j < to ==> !records[j].disposition.Accepted? && !records[j].healthStatus.Offline?
  }

  lemma {:induction false} InvalidSticksFrom(
    agent: Agent, hp: HealthPolicy, memory: Memory, db: Database, script: seq<Step>, k: nat)
    requires agent.policy.Valid()
    requires memory.health.status.Invalid?
    requires k < |Loop(agent, hp, memory, db, script).records|
    requires Unresolved(Loop(agent, hp, memory, db, script).records, 0, k + 1)
    ensures Loop(agent, hp, memory, db, script).records[k].healthStatus.Invalid?
    decreases |script|
  {
    hide *;
    if script == [] {
      LoopStops(agent, hp, memory, db);
    } else {
      var first := Interval(agent, hp, memory, db, script[0]);
      var records := Loop(agent, hp, memory, db, script).records;
      LoopGoesOn(agent, hp, memory, db, script);
      IntervalReports(agent, hp, memory, db, script[0]);
      ReportsOne(first, memory);
      if first.ending.Running? {
        var rest := Loop(agent, hp, first.memory, first.db, script[1..]);
        if 0 < k {
          FirstStaysInvalid(first, memory, records, k);
          UnresolvedTail(records, first.records, rest.records, k);
          InvalidSticksFrom(agent, hp, first.memory, first.db, script[1..], k - 1);
          assert records[k] == rest.records[k - 1];
        } else {
          FirstStaysInvalid(first, memory, records, k);
        }
      } else {
        FirstStaysInvalid(first, memory, records, k);
      }
    }
  }

  lemma FirstStaysInvalid(first: Effect, memory: Memory, records: seq<Record>, k: nat)
    requires Reports(first, memory) && memory.health.status.Invalid?
    requires k < |records| && first.records <= records && Unresolved(records, 0, k + 1)
    requires first.ending.Running? || records == first.records
    ensures |first.records| == 1 && first.ending.Running?
    ensures records[0] == first.records[0]
    ensures records[0].healthStatus.Invalid? && first.memory.health.status.Invalid?
  {
    assert first.records != [] ==> records[0] == first.records[0];
  }

  lemma UnresolvedTail(records: seq<Record>, first: seq<Record>, rest: seq<Record>, k: nat)
    requires records == first + rest && |first| == 1 && 0 < k < |records|
    requires Unresolved(records, 0, k + 1)
    ensures k - 1 < |rest| && Unresolved(rest, 0, k)
  {
    forall j | 0 <= j < k
      ensures !rest[j].disposition.Accepted? && !rest[j].healthStatus.Offline?
    {
      assert rest[j] == records[j + 1];
    }
  }

  lemma {:induction false} InvalidSticksAfter(
    agent: Agent, hp: HealthPolicy, memory: Memory, db: Database, script: seq<Step>, i: nat, k: nat)
    requires agent.policy.Valid()
    requires i <= k < |Loop(agent, hp, memory, db, script).records|
    requires Loop(agent, hp, memory, db, script).records[i].disposition.Rejected?
    requires Unresolved(Loop(agent, hp, memory, db, script).records, i + 1, k + 1)
    ensures Loop(agent, hp, memory, db, script).records[k].healthStatus.Invalid?
    decreases |script|
  {
    hide *;
    if script == [] {
      LoopStops(agent, hp, memory, db);
    } else {
      var first := Interval(agent, hp, memory, db, script[0]);
      var records := Loop(agent, hp, memory, db, script).records;
      LoopGoesOn(agent, hp, memory, db, script);
      IntervalReports(agent, hp, memory, db, script[0]);
      ReportsOne(first, memory);
      if first.ending.Running? {
        var rest := Loop(agent, hp, first.memory, first.db, script[1..]);
        assert records == first.records + rest.records;
        if 0 < k {
          assert records[k] == rest.records[k - 1];
          ShiftUnresolved(records, rest.records, i, k);
          if i == 0 {
            InvalidSticksFrom(agent, hp, first.memory, first.db, script[1..], k - 1);
          } else {
            assert records[i] == rest.records[i - 1];
            InvalidSticksAfter(agent, hp, first.memory, first.db, script[1..], i - 1, k - 1);
          }
        }
      }
    }
  }

  /** Once an interval is rejected, every later one reports `invalid` for as long as none is reported
      accepted and none reports `offline`, duplicates included. */
  lemma InvalidIsSticky(agent: Agent, hp: HealthPolicy, memory: Memory, db: Database, script: seq<Step>)
    requires agent.policy.Valid()
    ensures var records := Loop(agent, hp, memory, db, script).records;
            forall i: nat, k: nat ::
              i <= k < |records| && records[i].disposition.Rejected? && Unresolved(records, i + 1, k + 1)
              ==> records[k].healthStatus.Invalid?
  {
    hide *;
    var records := Loop(agent, hp, memory, db, script).records;
    forall i: nat, k: nat |
      i <= k < |records| && records[i].disposition.Rejected? && Unresolved(records, i + 1, k + 1)
      ensures records[k].healthStatus.Invalid?
    {
      InvalidSticksAfter(agent, hp, memory, db, script, i, k);
    }
  }

  lemma ReportsOne(e: Effect, memory: Memory)
    requires Reports(e, memory)
    ensures |e.records| <= 1 && (e.ending.Running? <==> |e.records| == 1)
    ensures |e.records| == 1 ==> e.records[0].healthStatus == e.memory.health.status
    ensures |e.records| == 1 && e.records[0].disposition.Rejected? ==> e.memory.health.status.Invalid?
  {
  }

  lemma ShiftUnresolved(records: seq<Record>, rest: seq<Record>, i: nat, k: nat)
    requires |records| == 1 + |rest| && records[1..] == rest
    requires i <= k < |records| && 0 < k && Unresolved(records, i + 1, k + 1)
    ensures Unresolved(rest, i, k)
    ensures i == 0 ==> Unresolved(rest, 0, k - 1 + 1)
  {
    forall j | i <= j < k
      ensures !rest[j].disposition.Accepted? && !rest[j].healthStatus.Offline?
    {
      assert rest[j] == records[j + 1];
    }
  }

  // ---------------------------------------------------------------------------------------------
  // Intervals without an event

  /** An undisturbed interval without a well-formed event always goes through, reports the
      classifier's verdict and keeps the latest state. */
  lemma EventlessInterval(agent: Agent, hp: HealthPolicy, memory: Memory, db: Database, step: Step)
    requires agent.policy.Valid() && !Blank(agent.deviceID)
    requires Intact(db) && Refines(memory, db, agent.deviceID)
    requires step.fate.Completes? && step.now.Durable()
    requires EventOf(step.envelope).None?
    ensures var e := Interval(agent, hp, memory, db, step);
            var classification := Classify(Input(memory, hp, agent.policy.interval, step.envelope, step.now));
            && e.ending.Running?
            && Intact(e.db) && Refines(e.memory, e.db, agent.deviceID)
            && classification.Classified?
            && e.memory == Memory(memory.state, classification.result.health)
            && |e.records| == 1
            && e.records[0].disposition == classification.result.disposition
            && e.records[0].healthStatus == classification.result.health.status
  {
    var input := Input(memory, hp, agent.policy.interval, step.envelope, step.now);
    var p := Process(agent, hp, memory, db, step.envelope, step.now, FailureOf(step.fate));
    assert !Foreign(agent.deviceID, step.envelope);
    assert input.envelope == step.envelope && Memory(memory.state, p.memory.health).state == memory.state;
    hide *;
    IntervalContinues(agent, hp, memory, db, step);
    IntervalStaysSafe(agent, hp, memory, db, step);
    IntervalCases(agent, hp, memory, db, step);
    ProcessMeaning(agent, hp, memory, db, step.envelope, step.now, FailureOf(step.fate));
    ProcessHealth(agent, hp, memory, db, step.envelope, step.now, FailureOf(step.fate));
    EventlessVerdict(input);
    CompletedRecord(agent, db, p, step);
  }

  lemma EventlessVerdict(input: ClassifyInput)
    requires EventOf(input.envelope).None?
    ensures Classify(input).Classified? ==> Classify(input).result.state.None?
  {
    if Classify(input).Classified? {
      ClassifiedContents(input);
    }
    hide Classify;
  }

  lemma CompletedRecord(agent: Agent, db: Database, p: Processing, step: Step)
    requires step.fate.Completes?
    requires Delivered(agent, db, p, step).ending.Running?
    requires p.processed.Unprocessed? ==> !p.processed.ending.Running?
    ensures var e := Delivered(agent, db, p, step);
            && p.processed.Committed?
            && e.memory == p.memory
            && |e.records| == 1
            && e.records[0].disposition == p.processed.outcome.disposition
            && e.records[0].healthStatus == p.processed.outcome.health.status
  {
  }

  // ---------------------------------------------------------------------------------------------
  // The documented restoration rule fails

  /** A malformed delivery, then reported unavailability, then silence. */
  function SilentRecovery(deviceID: string): seq<Step> {
    var at := Time(1, true);
    [ Step(Some(Envelope(deviceID, at, None, true)), at, Completes),
      Step(Some(Envelope(deviceID, at, None, false)), at, Completes),
      Step(None, Time(2, true), Completes) ]
  }

  /** For every agent, on an empty database: these three intervals report `invalid`, `offline` and then
      `online` without any valid event ever having arrived. */
  lemma SilenceRestoresHealth(agent: Agent, hp: HealthPolicy)
    requires agent.policy.Valid() && !Blank(agent.deviceID) && hp.Valid() && hp.offlineAfter > 1
    ensures var e := Loop(agent, hp, RestoredMemory(EMPTY_DATABASE, agent.deviceID), EMPTY_DATABASE,
                          SilentRecovery(agent.deviceID));
            && |e.records| == 3
            && e.records[0].disposition.Rejected? && e.records[0].healthStatus.Invalid?
            && e.records[1].disposition.Unavailable? && e.records[1].healthStatus.Offline?
            && e.records[2].disposition.Missing? && e.records[2].healthStatus.Online?
  {
    var script := SilentRecovery(agent.deviceID);
    var m0 := RestoredMemory(EMPTY_DATABASE, agent.deviceID);
    assert m0 == Memory(ZERO_STATE, ZERO_HEALTH);
    var e0 := Interval(agent, hp, m0, EMPTY_DATABASE, script[0]);
    var e1 := Interval(agent, hp, e0.memory, e0.db, script[1]);
    var e2 := Interval(agent, hp, e1.memory, e1.db, script[2]);
    EventlessInterval(agent, hp, m0, EMPTY_DATABASE, script[0]);
    EventlessInterval(agent, hp, e0.memory, e0.db, script[1]);
    EventlessInterval(agent, hp, e1.memory, e1.db, script[2]);
    ThreeIntervals(agent, hp, m0, EMPTY_DATABASE, script[0], script[1], script[2]);
    assert script == [script[0], script[1], script[2]];
    SilentVerdicts(agent, hp, m0, script);
    hide Interval, Loop, Classify, Intact;
  }

  lemma ThreeIntervals(agent: Agent, hp: HealthPolicy, memory: Memory, db: Database, a: Step, b: Step, c: Step)
    requires agent.policy.Valid()
    ensures var e0 := Interval(agent, hp, memory, db, a);
            var e1 := Interval(agent, hp, e0.memory, e0.db, b);
            var e2 := Interval(agent, hp, e1.memory, e1.db, c);
            e0.ending.Running? && e1.ending.Running? && e2.ending.Running? ==>
              Loop(agent, hp, memory, db, [a, b, c]).records == e0.records + (e1.records + e2.records)
  {
    hide *;
    var e0 := Interval(agent, hp, memory, db, a);
    var e1 := Interval(agent, hp, e0.memory, e0.db, b);
    var e2 := Interval(agent, hp, e1.memory, e1.db, c);
    assert [a, b, c][1..] == [b, c] && [b, c][1..] == [c] && [c][1..] == [];
    LoopStops(agent, hp, e2.memory, e2.db);
    LoopGoesOn(agent, hp, e1.memory, e1.db, [c]);
    LoopGoesOn(agent, hp, e0.memory, e0.db, [b, c]);
    LoopGoesOn(agent, hp, memory, db, [a, b, c]);
  }

  lemma SilentVerdicts(agent: Agent, hp: HealthPolicy, memory: Memory, script: seq<Step>)
    requires !Blank(agent.deviceID) && hp.Valid() && hp.offlineAfter > 1
    requires memory == Memory(ZERO_STATE, ZERO_HEALTH) && script == SilentRecovery(agent.deviceID)
    ensures var c0 := Classify(Input(memory, hp, agent.policy.interval, script[0].envelope, script[0].now));
            c0.Classified? && c0.result.disposition.Rejected? && c0.result.health.status.Invalid? &&
            var m1 := Memory(ZERO_STATE, c0.result.health);
            var c1 := Classify(Input(m1, hp, agent.policy.interval, script[1].envelope, script[1].now));
            c1.Classified? && c1.result.disposition.Unavailable? && c1.result.health.status.Offline? &&
            var m2 := Memory(ZERO_STATE, c1.result.health);
            var c2 := Classify(Input(m2, hp, agent.policy.interval, script[2].envelope, script[2].now));
            c2.Classified? && c2.result.disposition.Missing? && c2.result.health.status.Online?
  {
  }

  // ---------------------------------------------------------------------------------------------
  // A stretch of missing heartbeats

  predicate Silent(script: seq<Step>) {
    && Undisturbed(script)
    && (forall i :: 0 <= i < |script| ==> script[i].envelope.None?)
    && (forall i, j :: 0 <= i < j < |script| ==> script[i].now.ns <= script[j].now.ns)
  }

  /** The status silence gives a device at a clock reading, from what was known when it began. */
  function SilentStatus(hp: HealthPolicy, memory: Memory, now: Time): HealthStatus {
    if ContactLost(hp, now, memory.health.lastContactAt) then Offline
    else if memory.health.status.Invalid? then Invalid
    else if LatestEventStale(hp, now, memory.state) then Stale
    else Online
  }

  /** One missing heartbeat, and what it does to the status at any later reading. */
  lemma MissingInterval(agent: Agent, hp: HealthPolicy, memory: Memory, db: Database, step: Step)
    requires agent.policy.Valid() && !Blank(agent.deviceID)
    requires Intact(db) && Refines(memory, db, agent.deviceID)
    requires step.fate.Completes? && step.now.Durable() && step.envelope.None?
    ensures var e := Interval(agent, hp, memory, db, step);
            && e.ending.Running?
            && Intact(e.db) && Refines(e.memory, e.db, agent.deviceID)
            && e.memory.health.lastContactAt == memory.health.lastContactAt
            && |e.records| == 1
            && e.records[0].disposition.Missing?
            && e.records[0].healthStatus == SilentStatus(hp, memory, step.now)
            && (forall now: Time :: now.ns >= step.now.ns
                  ==> SilentStatus(hp, e.memory, now) == SilentStatus(hp, memory, now))
  {
    var input := Input(memory, hp, agent.policy.interval, step.envelope, step.now);
    hide *;
    NoEvent(step.envelope);
    EventlessInterval(agent, hp, memory, db, step);
    SilentVerdict(agent, hp, memory, step);
  }

  lemma NoEvent(envelope: Option<Envelope>)
    requires envelope.None?
    ensures EventOf(envelope).None?
  {
  }

  lemma SilentVerdict(agent: Agent, hp: HealthPolicy, memory: Memory, step: Step)
    requires step.envelope.None?
    ensures var c := Classify(Input(memory, hp, agent.policy.interval, step.envelope, step.now));
            && c.Classified?
            && c.result.disposition.Missing?
            && c.result.health.lastContactAt == memory.health.lastContactAt
            && c.result.health.status == SilentStatus(hp, memory, step.now)
            && (forall now: Time :: now.ns >= step.now.ns ==>
                  SilentStatus(hp, Memory(memory.state, c.result.health), now) == SilentStatus(hp, memory, now))
  {
    var input := Input(memory, hp, agent.policy.interval, step.envelope, step.now);
    assert Classify(input) == Classified(ClassifyMissing(input));
    forall now: Time | now.ns >= step.now.ns
      ensures SilentStatus(hp, Memory(memory.state, Classify(input).result.health), now)
              == SilentStatus(hp, memory, now)
    {
      if ContactLost(hp, step.now, memory.health.lastContactAt) {
        assert ContactLost(hp, now, memory.health.lastContactAt);
      }
    }
  }

  lemma {:induction false} SilentLoop(
    agent: Agent, hp: HealthPolicy, memory: Memory, db: Database, script: seq<Step>)
    requires agent.policy.Valid() && !Blank(agent.deviceID)
    requires Intact(db) && Refines(memory, db, agent.deviceID)
    requires Silent(script)
    ensures var e := Loop(agent, hp, memory, db, script);
            && e.ending.Running?
            && |e.records| == |script|
            && (forall i :: 0 <= i < |script| ==>
                  && e.records[i].disposition.Missing?
                  && e.records[i].healthStatus == SilentStatus(hp, memory, script[i].now))
    decreases |script|
  {
    hide *;
    if script == [] {
      LoopStops(agent, hp, memory, db);
    } else {
      var first := Interval(agent, hp, memory, db, script[0]);
      SilentParts(script);
      MissingInterval(agent, hp, memory, db, script[0]);
      LoopGoesOn(agent, hp, memory, db, script);
      SilentLoop(agent, hp, first.memory, first.db, script[1..]);
      var records := Loop(agent, hp, memory, db, script).records;
      var rest := Loop(agent, hp, first.memory, first.db, script[1..]).records;
      assert records == first.records + rest;
      forall i | 0 <= i < |script|
        ensures records[i].disposition.Missing? && records[i].healthStatus == SilentStatus(hp, memory, script[i].now)
      {
        if 0 < i {
          assert records[i] == rest[i - 1] && script[1..][i - 1] == script[i];
        } else {
          assert records[0] == first.records[0];
        }
      }
    }
  }

  lemma SilentParts(script: seq<Step>)
    requires script != [] && Silent(script)
    ensures Silent(script[1..])
    ensures script[0].fate.Completes? && script[0].now.Durable() && script[0].envelope.None?
    ensures forall i :: 0 <= i < |script| ==> script[0].now.ns <= script[i].now.ns
  {
  }

  /** Silence only ever takes a status forward. */
  predicate Degrades(from: HealthStatus, to: HealthStatus) {
    || from == to
    || (from.Online? && (to.Stale? || to.Offline?))
    || ((from.Stale? || from.Invalid?) && to.Offline?)
  }

  lemma SilentStatusDegrades(hp: HealthPolicy, memory: Memory, earlier: Time, later: Time)
    requires earlier.ns <= later.ns
    ensures Degrades(SilentStatus(hp, memory, earlier), SilentStatus(hp, memory, later))
  {
  }

  function Changes(records: seq<Record>): nat {
    if |records| < 2 then 0
    else Changes(records[1..]) + if records[0].healthStatus != records[1].healthStatus then 1 else 0
  }

  function Severity(status: HealthStatus): nat {
    match status
    case Offline => 2
    case Stale | Invalid => 1
    case _ => 0
  }

  lemma {:induction false} FewChanges(records: seq<Record>)
    requires forall i, j :: 0 <= i < j < |records| ==> Degrades(records[i].healthStatus, records[j].healthStatus)
    ensures records != [] ==> Changes(records) + Severity(records[0].healthStatus) <= 2
    ensures Changes(records) <= 2
  {
    if |records| >= 2 {
      forall i, j | 0 <= i < j < |records[1..]|
        ensures Degrades(records[1..][i].healthStatus, records[1..][j].healthStatus)
      {
        assert records[1..][i] == records[i + 1] && records[1..][j] == records[j + 1];
      }
      FewChanges(records[1..]);
    }
  }

  /** A stretch of missing heartbeats under a clock that does not go back: from the first of them on,
      the status only moves online, stale, offline or invalid, offline; it changes at most twice; and
      it is `offline` exactly when contact was ever made and its age has reached the threshold. */
  lemma MissingHeartbeatStretch(agent: Agent, hp: HealthPolicy, memory: Memory, db: Database, script: seq<Step>)
    requires agent.policy.Valid() && !Blank(agent.deviceID)
    requires Intact(db) && Refines(memory, db, agent.deviceID)
    requires Silent(script)
    ensures var records := Loop(agent, hp, memory, db, script).records;
            && |records| == |script|
            && (forall i, j :: 0 <= i < j < |records| ==> Degrades(records[i].healthStatus, records[j].healthStatus))
            && Changes(records) <= 2
            && (forall i :: 0 <= i < |records| ==>
                  (records[i].healthStatus.Offline? <==>
                     ContactLost(hp, script[i].now, memory.health.lastContactAt)))
  {
    var records := Loop(agent, hp, memory, db, script).records;
    SilentLoop(agent, hp, memory, db, script);
    forall i, j | 0 <= i < j < |records|
      ensures Degrades(records[i].healthStatus, records[j].healthStatus)
    {
      SilentStatusDegrades(hp, memory, script[i].now, script[j].now);
    }
    FewChanges(records);
    hide Loop, Degrades, Changes, Intact;
  }

  // ---------------------------------------------------------------------------------------------
  // The transition time

  /** `k` begins the last unbroken stretch of one status. */
  predicate BeginsLastStretch(beats: seq<Beat>, k: nat)
    requires k < |beats|
  {
    && (forall j :: k <= j < |beats| ==> beats[j].status == beats[|beats| - 1].status)
    && (k == 0 || beats[k - 1].status != beats[k].status)
  }

  /** A device's durable health says when its present status began. */
  predicate Truthful(health: DeviceHealth, beats: seq<Beat>) {
    if beats == [] then health == ZERO_HEALTH
    else
      && health.status == beats[|beats| - 1].status
      && DurableHealth(health)
      && exists k :: 0 <= k < |beats| && BeginsLastStretch(beats, k) && health.transitionTime == beats[k].at
  }

  /** `invalid` at one evaluation is still `invalid` at the next, unless that one accepts its observation
      or reports `offline`. */
  predicate StaysInvalid(beats: seq<Beat>, j: nat)
    requires 0 < j < |beats|
  {
    beats[j - 1].status.Invalid? ==>
      beats[j].status.Invalid? || beats[j].disposition.Accepted? || beats[j].status.Offline?
  }

  predicate Sticky(beats: seq<Beat>) {
    && (forall j :: 0 <= j < |beats| ==> (beats[j].disposition.Rejected? ==> beats[j].status.Invalid?))
    && (forall j :: 0 < j < |beats| ==> StaysInvalid(beats, j))
  }

  lemma StickyExtends(health: DeviceHealth, beats: seq<Beat>, next: Beat)
    requires Truthful(health, beats) && Sticky(beats)
    requires next.disposition.Rejected? ==> next.status.Invalid?
    requires health.status.Invalid? && !next.disposition.Accepted? && !next.status.Offline? ==> next.status.Invalid?
    ensures Sticky(beats + [next])
  {
    var all := beats + [next];
    forall j | 0 < j < |all| ensures StaysInvalid(all, j) {
      assert j < |beats| ==> StaysInvalid(beats, j);
    }
  }

  lemma TruthfulExtends(
    health: DeviceHealth, beats: seq<Beat>, next: DeviceHealth, at: Time, disposition: Disposition)
    requires Truthful(health, beats) && DurableHealth(next)
    requires next.transitionTime ==
             if next.status == health.status && !health.transitionTime.IsZero() then health.transitionTime else at
    ensures Truthful(next, beats + [Beat(next.status, at, disposition)])
  {
    var all := beats + [Beat(next.status, at, disposition)];
    if beats != [] && next.status == health.status {
      var k :| 0 <= k < |beats| && BeginsLastStretch(beats, k) && health.transitionTime == beats[k].at;
      assert BeginsLastStretch(all, k);
    } else {
      assert BeginsLastStretch(all, |beats|);
    }
  }

  lemma IntervalBeats(agent: Agent, hp: HealthPolicy, memory: Memory, db: Database, step: Step, beats: seq<Beat>)
    requires agent.policy.Valid()
    requires Intact(db) && Refines(memory, db, agent.deviceID)
    requires Truthful(memory.health, beats)
    ensures var e := Interval(agent, hp, memory, db, step);
            && Truthful(e.memory.health, beats + e.beats)
            && (Sticky(beats) ==> Sticky(beats + e.beats))
  {
    var p := Process(agent, hp, memory, db, step.envelope, step.now, FailureOf(step.fate));
    var input := Input(memory, hp, agent.policy.interval, step.envelope, step.now);
    assert input.priorHealth == memory.health && input.envelope == step.envelope && input.now == step.now;
    hide *;
    IntervalStaysSafe(agent, hp, memory, db, step);
    IntervalCases(agent, hp, memory, db, step);
    ProcessMeaning(agent, hp, memory, db, step.envelope, step.now, FailureOf(step.fate));
    ProcessHealth(agent, hp, memory, db, step.envelope, step.now, FailureOf(step.fate));
    DeliveredBeats(agent, db, p, step, memory);
    assert beats + [] == beats;
    if p.processed.Committed? && p.processed.status.CommitStored? {
      ClassifiedTransition(input);
      StoredHealthIsDurable(agent, memory, db, step, p);
      var o := p.processed.outcome;
      var at := ReceivedAtOrNow(step.envelope, step.now);
      InvalidSticksOnce(input);
      TruthfulExtends(memory.health, beats, p.memory.health, at, o.disposition);
      if Sticky(beats) {
        StickyExtends(memory.health, beats, Beat(o.health.status, at, o.disposition));
      }
    }
  }

  lemma DeliveredBeats(agent: Agent, db: Database, p: Processing, step: Step, memory: Memory)
    ensures NoEffect(memory, db, CleanStop).beats == []
    ensures forall ending :: NoEffect(memory, db, ending).beats == [] && NoEffect(memory, db, ending).memory == memory
    ensures var e := Delivered(agent, db, p, step);
            && e.memory == p.memory
            && e.beats ==
               if p.processed.Committed? && p.processed.status.CommitStored? then
                 [Beat(p.processed.outcome.health.status, ReceivedAtOrNow(step.envelope, step.now),
                       p.processed.outcome.disposition)]
               else []
  {
  }

  lemma StoredHealthIsDurable(agent: Agent, memory: Memory, db: Database, step: Step, p: Processing)
    requires agent.policy.Valid() && p.processed.Committed? && Intact(p.db)
    requires StoresObservation(agent, memory.state, db, step.envelope, step.now, p.db, p.processed.outcome)
    ensures DurableHealth(p.processed.outcome.health)
  {
    assert agent.deviceID in p.db.health;
  }

  lemma {:induction false} LoopBeats(
    agent: Agent, hp: HealthPolicy, memory: Memory, db: Database, script: seq<Step>, beats: seq<Beat>)
    requires agent.policy.Valid()
    requires Intact(db) && Refines(memory, db, agent.deviceID)
    requires Truthful(memory.health, beats)
    ensures var e := Loop(agent, hp, memory, db, script);
            && Truthful(e.memory.health, beats + e.beats)
            && (Sticky(beats) ==> Sticky(beats + e.beats))
    decreases |script|
  {
    hide *;
    if script == [] {
      LoopStops(agent, hp, memory, db);
      assert beats + [] == beats;
    } else {
      var first := Interval(agent, hp, memory, db, script[0]);
      LoopGoesOn(agent, hp, memory, db, script);
      IntervalBeats(agent, hp, memory, db, script[0], beats);
      IntervalStaysSafe(agent, hp, memory, db, script[0]);
      if first.ending.Running? {
        var rest := Loop(agent, hp, first.memory, first.db, script[1..]);
        LoopBeats(agent, hp, first.memory, first.db, script[1..], beats + first.beats);
        assert beats + (first.beats + rest.beats) == beats + first.beats + rest.beats;
      }
    }
  }

  predicate SameDevice(a: Database, b: Database, deviceID: string) {
    RestoredMemory(a, deviceID) == RestoredMemory(b, deviceID)
  }

  lemma OtherDeviceUntouched(
    agent: Agent, state: State, db: Database, envelope: Option<Envelope>, now: Time, after: Database, o: Outcome,
    deviceID: string)
    requires agent.policy.Valid() && deviceID != agent.deviceID
    requires StoresObservation(agent, state, db, envelope, now, after, o)
    ensures SameDevice(db, after, deviceID)
  {
    assert deviceID in after.health <==> deviceID in db.health;
    assert deviceID in after.latest <==> deviceID in db.latest;
  }

  lemma {:induction false} LoopLeavesOtherDevices(
    agent: Agent, hp: HealthPolicy, memory: Memory, db: Database, script: seq<Step>, deviceID: string)
    requires agent.policy.Valid() && deviceID != agent.deviceID
    requires Intact(db) && Refines(memory, db, agent.deviceID)
    ensures RestoredMemory(Loop(agent, hp, memory, db, script).db, deviceID) == RestoredMemory(db, deviceID)
    decreases |script|
  {
    hide *;
    if script == [] {
      LoopStops(agent, hp, memory, db);
    } else {
      var first := Interval(agent, hp, memory, db, script[0]);
      LoopGoesOn(agent, hp, memory, db, script);
      IntervalLeavesOtherDevices(agent, hp, memory, db, script[0], deviceID);
      IntervalStaysSafe(agent, hp, memory, db, script[0]);
      if first.ending.Running? {
        LoopLeavesOtherDevices(agent, hp, first.memory, first.db, script[1..], deviceID);
      }
    }
  }

  lemma IntervalLeavesOtherDevices(
    agent: Agent, hp: HealthPolicy, memory: Memory, db: Database, step: Step, deviceID: string)
    requires agent.policy.Valid() && deviceID != agent.deviceID
    requires Intact(db) && Refines(memory, db, agent.deviceID)
    ensures RestoredMemory(Interval(agent, hp, memory, db, step).db, deviceID) == RestoredMemory(db, deviceID)
  {
    var p := Process(agent, hp, memory, db, step.envelope, step.now, FailureOf(step.fate));
    hide *;
    IntervalCases(agent, hp, memory, db, step);
    ProcessMeaning(agent, hp, memory, db, step.envelope, step.now, FailureOf(step.fate));
    DeliveredDatabase(agent, db, p, step, memory);
    if p.processed.Committed? && p.processed.status.CommitStored? {
      OtherDeviceUntouched(
        agent, memory.state, db, step.envelope, step.now, p.db, p.processed.outcome, deviceID);
      SameDeviceMeans(db, p.db, deviceID);
    }
  }

  lemma SameDeviceMeans(a: Database, b: Database, deviceID: string)
    requires SameDevice(a, b, deviceID)
    ensures RestoredMemory(a, deviceID) == RestoredMemory(b, deviceID)
  {
  }

  lemma DeliveredDatabase(agent: Agent, db: Database, p: Processing, step: Step, memory: Memory)
    ensures Delivered(agent, db, p, step).db == p.db
    ensures forall ending :: NoEffect(memory, db, ending).db == db
  {
  }

  /** The durable health evaluations of one device over many runs on one database. */
  function BeatsOver(db: Database, launches: seq<Launch>, deviceID: string): seq<Beat>
    requires Launchable(launches)
  {
    if launches == [] then []
    else
      var init := launches[..|launches| - 1];
      var last := launches[|launches| - 1];
      BeatsOver(db, init, deviceID) +
      if last.agent.deviceID == deviceID then last.On(Lifetime(db, init).db).beats else []
  }

  lemma LaunchBeats(launch: Launch, db: Database, deviceID: string, beats: seq<Beat>)
    requires launch.agent.policy.Valid() && Intact(db)
    requires Truthful(RestoredMemory(db, deviceID).health, beats)
    ensures var e := launch.On(db);
            var all := beats + if launch.agent.deviceID == deviceID then e.beats else [];
            Truthful(RestoredMemory(e.db, deviceID).health, all) && (Sticky(beats) ==> Sticky(all))
  {
    hide *;
    assert beats + [] == beats;
    var agent := launch.agent;
    var script := Bounded(agent, launch.script);
    var hp := NewHealthPolicy(agent.policy.interval, 0, 0);
    var memory := RestoredMemory(db, agent.deviceID);
    LaunchUnfolds(launch, db);
    if !Blank(agent.deviceID) && hp.Ok? && !launch.snapshotFails {
      LoopIsSafe(agent, hp.value, memory, db, script);
      SafeMemory(agent, db, Loop(agent, hp.value, memory, db, script));
      if agent.deviceID == deviceID {
        LoopBeats(agent, hp.value, memory, db, script, beats);
      } else {
        LoopLeavesOtherDevices(agent, hp.value, memory, db, script, deviceID);
      }
    }
  }

  lemma LaunchUnfolds(launch: Launch, db: Database)
    requires launch.agent.policy.Valid()
    ensures var agent := launch.agent;
            var hp := NewHealthPolicy(agent.policy.interval, 0, 0);
            var memory := RestoredMemory(db, agent.deviceID);
            && Refines(memory, db, agent.deviceID)
            && (if !Blank(agent.deviceID) && hp.Ok? && !launch.snapshotFails then
                  var e := Loop(agent, hp.value, memory, db, Bounded(agent, launch.script));
                  launch.On(db).db == e.db && launch.On(db).beats == e.beats
                else launch.On(db).db == db && launch.On(db).beats == [])
  {
    hide Loop, NewHealthPolicy, SnapshotOf, Blank, Bounded;
  }

  /** The stored transition time is truthful over all runs, failures, crashes and restarts: it is always
      the evaluation time of the first interval of the present unbroken stretch of one status, duplicates
      not counting. The device may have any history to begin with, such as none, or the health a migration
      gave it. */
  lemma {:induction false} TransitionTimeIsTruthful(
    db: Database, launches: seq<Launch>, deviceID: string, history: seq<Beat>)
    requires Intact(db) && Launchable(launches)
    requires Truthful(SnapshotOf(db, deviceID).health, history)
    ensures var beats := history + BeatsOver(db, launches, deviceID);
            && Truthful(SnapshotOf(Lifetime(db, launches).db, deviceID).health, beats)
            && (Sticky(history) ==> Sticky(beats))
  {
    hide *;
    BeatsUnfold(db, launches, deviceID);
    LifetimeUnfolds(db, launches);
    RestoredHealth(Lifetime(db, launches).db, deviceID);
    if launches == [] {
      assert history + [] == history;
    } else {
      var init := launches[..|launches| - 1];
      var last := launches[|launches| - 1];
      var before := BeatsOver(db, init, deviceID);
      var more := if last.agent.deviceID == deviceID then last.On(Lifetime(db, init).db).beats else [];
      TransitionTimeIsTruthful(db, init, deviceID, history);
      DurableBeforeApplied(db, init);
      RestoredHealth(Lifetime(db, init).db, deviceID);
      LaunchBeats(last, Lifetime(db, init).db, deviceID, history + before);
      assert history + (before + more) == history + before + more;
    }
  }

  lemma BeatsUnfold(db: Database, launches: seq<Launch>, deviceID: string)
    requires Launchable(launches)
    ensures launches == [] ==> BeatsOver(db, launches, deviceID) == []
    ensures launches != [] ==>
              var init := launches[..|launches| - 1];
              var last := launches[|launches| - 1];
              && Launchable(init)
              && last.agent.policy.Valid()
              && BeatsOver(db, launches, deviceID) ==
                 BeatsOver(db, init, deviceID)
                 + if last.agent.deviceID == deviceID then last.On(Lifetime(db, init).db).beats else []
  {
    hide Launch.On, Lifetime;
  }

  lemma RestoredHealth(db: Database, deviceID: string)
    ensures RestoredMemory(db, deviceID).health == SnapshotOf(db, deviceID).health
  {
    hide SnapshotOf;
  }

  /** What any intact database lets on about a device's past. */
  function HistoryOf(db: Database, deviceID: string): seq<Beat> {
    if deviceID !in db.health then []
    else [Beat(db.health[deviceID].status, db.health[deviceID].transitionTime, HistoryOnly)]
  }

  lemma HistoryIsTruthful(db: Database, deviceID: string)
    requires Intact(db)
    ensures Truthful(SnapshotOf(db, deviceID).health, HistoryOf(db, deviceID)) && Sticky(HistoryOf(db, deviceID))
  {
    if deviceID in db.health {
      assert BeginsLastStretch(HistoryOf(db, deviceID), 0);
    }
    hide TelemetrySound, CommandsSound, LatestSound;
  }

  /** From any intact database, over all runs, failures, crashes and restarts: once an evaluation rejects
      its observation, every later durable one is `invalid` for as long as none accepts its observation
      and none is `offline`. */
  lemma InvalidIsStickyForGood(db: Database, launches: seq<Launch>, deviceID: string)
    requires Intact(db) && Launchable(launches)
    ensures var beats := BeatsOver(db, launches, deviceID);
            forall i: nat, k: nat ::
              i <= k < |beats| && beats[i].disposition.Rejected? && UnresolvedBeats(beats, i + 1, k + 1)
              ==> beats[k].status.Invalid?
  {
    hide *;
    var beats := BeatsOver(db, launches, deviceID);
    var history := HistoryOf(db, deviceID);
    HistoryIsTruthful(db, deviceID);
    TransitionTimeIsTruthful(db, launches, deviceID, history);
    forall i: nat, k: nat |
      i <= k < |beats| && beats[i].disposition.Rejected? && UnresolvedBeats(beats, i + 1, k + 1)
      ensures beats[k].status.Invalid?
    {
      BeatsStick(history, beats, i, k);
    }
  }

  predicate UnresolvedBeats(beats: seq<Beat>, from: int, to: int)
    requires 0 <= from && to <= |beats|
  {
    forall j :: from <= j < to ==> !beats[j].disposition.Accepted? && !beats[j].status.Offline?
  }

  lemma {:induction false} BeatsStick(history: seq<Beat>, beats: seq<Beat>, i: nat, k: nat)
    requires Sticky(history + beats)
    requires i <= k < |beats| && beats[i].disposition.Rejected? && UnresolvedBeats(beats, i + 1, k + 1)
    ensures beats[k].status.Invalid?
    decreases k
  {
    var all := history + beats;
    assert all[|history| + k] == beats[k];
    if i < k {
      BeatsStick(history, beats, i, k - 1);
      assert all[|history| + k - 1] == beats[k - 1];
      assert StaysInvalid(all, |history| + k);
    }
  }
}
