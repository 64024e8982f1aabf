/** What any sequence of commits, failing wherever they may, keeps true of the database. */
module Integrity {
  import opened Basics
  import opened LatestState
  import opened Classifier
  import opened Contracts
  import opened Storage

  predicate TelemetrySound(db: Database) {
    forall id :: id in db.telemetry ==>
      && db.telemetry[id].event.eventID == id
      && db.telemetry[id].event.Valid()
      && db.telemetry[id].event.eventTime.Durable()
  }

  /** A command row belongs to the stored accepted event of its own ID. */
  predicate CommandsSound(db: Database) {
    forall id :: id in db.commands ==>
      && db.commands[id].eventID == id
      && id in db.telemetry
      && db.telemetry[id].disposition.Accepted?
      && db.commands[id].command.Valid()
  }

  /** A latest row is exactly the state of a stored accepted event, and a health row stands beside it. */
  predicate LatestSound(db: Database) {
    forall d :: d in db.latest ==>
      && d != ""
      && db.latest[d].lastEventID in db.telemetry
      && db.telemetry[db.latest[d].lastEventID].disposition.Accepted?
      && db.latest[d] == StateOf(db.telemetry[db.latest[d].lastEventID].event)
      && db.latest[d].deviceID == d
      && d in db.health
  }

  predicate HealthSound(db: Database) {
    forall d :: d in db.health ==> DurableHealth(db.health[d])
  }

  predicate Intact(db: Database) {
    TelemetrySound(db) && CommandsSound(db) && LatestSound(db) && HealthSound(db)
  }

  lemma CommitKeepsIntact(db: Database, r: ObservationResult, failure: Failure)
    requires Intact(db)
    ensures Intact(Commit(db, r, failure).db)
  {
    ValidIffWellShaped(r);
    if Commit(db, r, failure).status == Ok(CommitStored) {
      WrittenTelemetrySound(db, r);
      WrittenCommandsSound(db, r);
      WrittenLatestSound(db, r);
      WrittenHealthSound(db, r);
    }
  }

  lemma WrittenTelemetrySound(db: Database, r: ObservationResult)
    requires TelemetrySound(db) && WellShaped(r)
    ensures TelemetrySound(Written(db, r))
  {
  }

  lemma WrittenCommandsSound(db: Database, r: ObservationResult)
    requires CommandsSound(db) && WellShaped(r) && !KnownEvent(db, r)
    ensures CommandsSound(Written(db, r))
  {
  }

  lemma WrittenLatestSound(db: Database, r: ObservationResult)
    requires LatestSound(db) && WellShaped(r) && !KnownEvent(db, r)
    ensures LatestSound(Written(db, r))
  {
  }

  lemma WrittenHealthSound(db: Database, r: ObservationResult)
    requires HealthSound(db) && WellShaped(r)
    ensures HealthSound(Written(db, r))
  {
  }

  /** On an intact database a commit fails only for the two reasons a caller can see: the result is
      invalid or storage failed. The uniqueness constraint on commands never strikes. */
  lemma CommitOnlyFailsForCause(db: Database, r: ObservationResult, failure: Failure)
    requires Intact(db)
    ensures !CommandConflicts(db, r) || KnownEvent(db, r) || !r.Valid()
    ensures Commit(db, r, failure).status.Err? <==> !r.Valid() || Strikes(db, r, failure)
    ensures Commit(db, r, failure).status != Ok(CommitStored) ==> Commit(db, r, failure).db == db
  {
    ValidIffWellShaped(r);
  }

  /** A commit never removes or rewrites an event or a command, and never touches another device. */
  lemma CommitOnlyAdds(db: Database, r: ObservationResult, failure: Failure)
    requires Intact(db)
    ensures var db' := Commit(db, r, failure).db;
            && (forall id :: id in db.telemetry ==> id in db'.telemetry && db'.telemetry[id] == db.telemetry[id])
            && (forall id :: id in db.commands ==> id in db'.commands && db'.commands[id] == db.commands[id])
            && (forall d | d != r.deviceID ::
                  && (d in db'.latest <==> d in db.latest)
                  && (d in db.latest ==> db'.latest[d] == db.latest[d])
                  && (d in db'.health <==> d in db.health)
                  && (d in db.health ==> db'.health[d] == db.health[d]))
  {
    ValidIffWellShaped(r);
    CommitOnlyFailsForCause(db, r, failure);
  }

  // ---------------------------------------------------------------------------------------------
  // Arbitrary sequences of commits

  datatype Call = Call(result: ObservationResult, failure: Failure)

  function CommitAll(db: Database, calls: seq<Call>): Database {
    if calls == [] then db
    else
      var last := calls[|calls| - 1];
      Commit(CommitAll(db, calls[..|calls| - 1]), last.result, last.failure).db
  }

  /** The states the stored commits of a sequence submitted for one device, in order. */
  function Submitted(db: Database, calls: seq<Call>, deviceID: string): seq<State> {
    if calls == [] then []
    else
      var earlier := calls[..|calls| - 1];
      var last := calls[|calls| - 1];
      var r := last.result;
      Submitted(db, earlier, deviceID) +
      if && Commit(CommitAll(db, earlier), r, last.failure).status == Ok(CommitStored)
         && r.latestState.Some?
         && r.latestState.value.deviceID == deviceID
      then [r.latestState.value] else []
  }

  function RowBefore(db: Database, deviceID: string): seq<State> {
    if deviceID in db.latest then [db.latest[deviceID]] else []
  }

  /** `row` is the first state of the largest event time in the list. */
  predicate FirstLatest(row: State, states: seq<State>) {
    exists k :: 0 <= k < |states| && IsFirstLatest(row, states, k)
  }

  predicate IsFirstLatest(row: State, states: seq<State>, k: nat)
    requires k < |states|
  {
    && states[k] == row
    && (forall j :: 0 <= j < k ==> row.updatedAt.ns > states[j].updatedAt.ns)
    && (forall j :: k <= j < |states| ==> row.updatedAt.ns >= states[j].updatedAt.ns)
  }

  lemma CommitAllKeepsIntact(db: Database, calls: seq<Call>)
    requires Intact(db)
    ensures Intact(CommitAll(db, calls))
  {
    if calls != [] {
      var last := calls[|calls| - 1];
      CommitAllKeepsIntact(db, calls[..|calls| - 1]);
      CommitKeepsIntact(CommitAll(db, calls[..|calls| - 1]), last.result, last.failure);
    }
  }

  /** Over any sequence of commits, whichever of them fail, each device's latest row is the first
      submitted state of the largest event time, counting the row that was there to begin with;
      there is no row exactly when nothing was there and nothing was submitted. */
  lemma {:induction false} LatestRowIsMaximum(db: Database, calls: seq<Call>, deviceID: string)
    requires Intact(db)
    ensures var states := RowBefore(db, deviceID) + Submitted(db, calls, deviceID);
            var db' := CommitAll(db, calls);
            && (deviceID in db'.latest <==> states != [])
            && (deviceID in db'.latest ==> FirstLatest(db'.latest[deviceID], states))
  {
    if calls == [] {
      if deviceID in db.latest {
        assert IsFirstLatest(db.latest[deviceID], RowBefore(db, deviceID) + Submitted(db, calls, deviceID), 0);
      }
    } else {
      var earlier := calls[..|calls| - 1];
      var last := calls[|calls| - 1];
      LatestRowIsMaximum(db, earlier, deviceID);
      CommitAllKeepsIntact(db, earlier);
      LatestRowStep(db, earlier, last, deviceID);
      assert calls == earlier + [last];
    }
  }

  lemma LatestRowStep(db: Database, earlier: seq<Call>, last: Call, deviceID: string)
    requires Intact(CommitAll(db, earlier))
    requires var states := RowBefore(db, deviceID) + Submitted(db, earlier, deviceID);
             var mid := CommitAll(db, earlier);
             && (deviceID in mid.latest <==> states != [])
             && (deviceID in mid.latest ==> FirstLatest(mid.latest[deviceID], states))
    ensures var states := RowBefore(db, deviceID) + Submitted(db, earlier + [last], deviceID);
            var db' := CommitAll(db, earlier + [last]);
            && (deviceID in db'.latest <==> states != [])
            && (deviceID in db'.latest ==> FirstLatest(db'.latest[deviceID], states))
  {
    var calls := earlier + [last];
    var mid := CommitAll(db, earlier);
    var r := last.result;
    hide *;
    CommitAllStep(db, earlier, last, deviceID);
    if && Commit(mid, r, last.failure).status == Ok(CommitStored)
       && r.latestState.Some?
       && r.latestState.value.deviceID == deviceID
    {
      var s := r.latestState.value;
      LatestRowCompared(mid, r, last.failure, s);
      var before := RowBefore(db, deviceID) + Submitted(db, earlier, deviceID);
      AppendFirstLatest(before, if deviceID in mid.latest then Some(mid.latest[deviceID]) else None, s);
      assert RowBefore(db, deviceID) + Submitted(db, calls, deviceID) == before + [s];
    } else {
      LatestRowKept(mid, r, last.failure, deviceID);
    }
  }

  lemma CommitAllStep(db: Database, earlier: seq<Call>, last: Call, deviceID: string)
    ensures var calls := earlier + [last];
            var outcome := Commit(CommitAll(db, earlier), last.result, last.failure);
            && CommitAll(db, calls) == outcome.db
            && Submitted(db, calls, deviceID) ==
               if && outcome.status == Ok(CommitStored)
                  && last.result.latestState.Some?
                  && last.result.latestState.value.deviceID == deviceID
               then Submitted(db, earlier, deviceID) + [last.result.latestState.value]
               else Submitted(db, earlier, deviceID)
  {
    var calls := earlier + [last];
    assert calls[..|calls| - 1] == earlier && calls[|calls| - 1] == last;
    hide Commit;
  }

  lemma AppendFirstLatest(before: seq<State>, row: Option<State>, s: State)
    requires row.None? <==> before == []
    requires row.Some? ==> FirstLatest(row.value, before)
    ensures FirstLatest(if row.Some? && !s.updatedAt.After(row.value.updatedAt) then row.value else s, before + [s])
  {
    var after := before + [s];
    if row.None? {
      assert IsFirstLatest(s, after, 0);
    } else {
      var k :| 0 <= k < |before| && IsFirstLatest(row.value, before, k);
      if s.updatedAt.After(row.value.updatedAt) {
        forall j | 0 <= j < |before| ensures s.updatedAt.ns > after[j].updatedAt.ns {
          assert after[j] == before[j];
        }
        assert IsFirstLatest(s, after, |before|);
      } else {
        assert IsFirstLatest(row.value, after, k);
      }
    }
  }

  /** A commit that stores no state for a device leaves its row alone. */
  lemma LatestRowKept(db: Database, r: ObservationResult, failure: Failure, deviceID: string)
    requires Intact(db)
    requires Commit(db, r, failure).status == Ok(CommitStored) && r.latestState.Some?
             ==> r.latestState.value.deviceID != deviceID
    ensures deviceID in Commit(db, r, failure).db.latest <==> deviceID in db.latest
    ensures deviceID in db.latest ==> Commit(db, r, failure).db.latest[deviceID] == db.latest[deviceID]
  {
    hide Intact, Strikes, ResultError, CommandConflicts, KnownEvent;
  }

  /** A commit that stores a state leaves the newer of the two, the old one on a tie. */
  lemma LatestRowCompared(db: Database, r: ObservationResult, failure: Failure, s: State)
    requires Intact(db)
    requires Commit(db, r, failure).status == Ok(CommitStored) && r.latestState == Some(s)
    ensures var db' := Commit(db, r, failure).db;
            && s.deviceID in db'.latest
            && db'.latest[s.deviceID] ==
               if s.deviceID in db.latest && !s.updatedAt.After(db.latest[s.deviceID].updatedAt)
               then db.latest[s.deviceID] else s
  {
    hide Intact, Strikes, ResultError, CommandConflicts, KnownEvent;
  }

  /** Everything a sequence of commits keeps, in one statement: referential integrity, unique and
      immutable events and commands, and untouched devices. */
  lemma {:induction false} CommitSequenceIsSafe(db: Database, calls: seq<Call>)
    requires Intact(db)
    ensures var db' := CommitAll(db, calls);
            && Intact(db')
            && (forall id :: id in db.telemetry ==> id in db'.telemetry && db'.telemetry[id] == db.telemetry[id])
            && (forall id :: id in db.commands ==> id in db'.commands && db'.commands[id] == db.commands[id])
            && (forall d | (forall c | c in calls :: c.result.deviceID != d) ::
                  && (d in db'.latest <==> d in db.latest)
                  && (d in db.latest ==> db'.latest[d] == db.latest[d])
                  && (d in db'.health <==> d in db.health)
                  && (d in db.health ==> db'.health[d] == db.health[d]))
  {
    if calls != [] {
      var earlier := calls[..|calls| - 1];
      var last := calls[|calls| - 1];
      CommitSequenceIsSafe(db, earlier);
      CommitKeepsIntact(CommitAll(db, earlier), last.result, last.failure);
      CommitOnlyAdds(CommitAll(db, earlier), last.result, last.failure);
      assert forall c | c in earlier :: c in calls;
      assert last in calls;
    }
  }
}
