/** The SQLite repository: four tables, a transaction written statement by statement on a staged
    copy, and the value-level meaning of one commit and one snapshot. */
module Storage {
  import opened Basics
  import opened LatestState
  import opened Health
  import opened Classifier
  import opened Contracts

  datatype Database = Database(
    telemetry: map<string, TelemetryRecord>,
    latest: map<string, State>,
    commands: map<string, CommandRecord>,
    health: map<string, DeviceHealth>)

  const EMPTY_DATABASE := Database(map[], map[], map[], map[])

  /** Where storage itself fails during one commit, if it does. */
  datatype Failure =
    | NoFailure
    | BeginFails
    | TelemetryInsertFails
    | RollbackFails
    | StateReadFails
    | StateWriteFails
    | CommandInsertFails
    | HealthUpsertFails
    | CommitFails

  datatype CommitOutcome = CommitOutcome(db: Database, status: Result<CommitStatus>)

  // ---------------------------------------------------------------------------------------------
  // Column constraints of the schema

  /** `length(trim(s)) > 0`: SQL trims the space character only. */
  predicate SqlNonBlank(s: string) {
    exists i :: 0 <= i < |s| && s[i] != ' '
  }

  predicate SqlTrimmed(s: string) {
    s == "" || (s[0] != ' ' && s[|s| - 1] != ' ')
  }

  predicate TelemetryRowAllowed(r: TelemetryRecord) {
    && r.event.pvPowerKW >= 0.0
    && r.event.loadPowerKW >= 0.0
    && 0.0 <= r.event.batterySOCPercent <= 100.0
    && r.event.priceEURPerKWh > 0.0
    && SqlNonBlank(r.event.eventID)
    && SqlTrimmed(r.event.eventID)
    && SqlNonBlank(r.event.deviceID)
    && (r.disposition.Accepted? || r.disposition.HistoryOnly?)
  }

  predicate StateRowAllowed(telemetry: map<string, TelemetryRecord>, s: State) {
    && s.lastEventID in telemetry
    && s.pvPowerKW >= 0.0
    && s.loadPowerKW >= 0.0
    && 0.0 <= s.batterySOCPercent <= 100.0
    && s.priceEURPerKWh > 0.0
    && SqlNonBlank(s.deviceID)
  }

  predicate CommandRowAllowed(
    telemetry: map<string, TelemetryRecord>, commands: map<string, CommandRecord>, r: CommandRecord)
  {
    && r.eventID !in commands
    && r.eventID in telemetry
    && !r.command.reason.NoReason?
    && (match r.command.decision
        case Charge | Discharge => r.command.powerKW > 0.0
        case Idle => r.command.powerKW == 0.0
        case UnknownDecision => false)
  }

  predicate HealthRowAllowed(deviceID: string, health: DeviceHealth) {
    SqlNonBlank(deviceID) && !health.status.NoStatus?
  }

  lemma SqlTrimLaw(s: string)
    ensures SqlNonBlank(s) <==> |Trim(s, c => c == ' ')| > 0
    ensures SqlTrimmed(s) <==> s == Trim(s, c => c == ' ')
  {
    TrimLaw(s, c => c == ' ');
  }

  /** The rows that the schema takes. For a command they are the commands the program takes for valid; for events
      and states their measurements are in range, while names are only trimmed of the space character. */
  lemma SchemaLaw(
    telemetry: map<string, TelemetryRecord>, commands: map<string, CommandRecord>, t: TelemetryRecord, s: State,
    c: CommandRecord, id: string, h: DeviceHealth)
    ensures TelemetryRowAllowed(t) <==>
            && t.event.pvPowerKW >= 0.0 && t.event.loadPowerKW >= 0.0
            && 0.0 <= t.event.batterySOCPercent <= 100.0 && t.event.priceEURPerKWh > 0.0
            && SqlNonBlank(t.event.eventID) && SqlTrimmed(t.event.eventID) && SqlNonBlank(t.event.deviceID)
            && t.disposition in {Accepted, HistoryOnly}
    ensures StateRowAllowed(telemetry, s) <==>
            && s.pvPowerKW >= 0.0 && s.loadPowerKW >= 0.0
            && 0.0 <= s.batterySOCPercent <= 100.0 && s.priceEURPerKWh > 0.0
            && SqlNonBlank(s.deviceID)
            && s.lastEventID in telemetry
    ensures CommandRowAllowed(telemetry, commands, c) <==>
            c.eventID in telemetry && c.eventID !in commands && c.command.Valid()
    ensures HealthRowAllowed(id, h) <==> SqlNonBlank(id) && h.status in {Online, Stale, Offline, Invalid}
  {
    hide SqlNonBlank, SqlTrimmed;
  }

  lemma GoNonBlankIsSqlNonBlank(s: string)
    requires !Blank(s)
    ensures SqlNonBlank(s)
  {
    var i :| 0 <= i < |s| && !IsSpace(s[i]);
    assert s[i] != ' ';
  }

  // ---------------------------------------------------------------------------------------------
  // The meaning of one commit

  predicate KnownEvent(db: Database, r: ObservationResult) {
    r.telemetry.Some? && r.telemetry.value.event.eventID in db.telemetry
  }

  /** The row the latest-state guard compares with. */
  predicate NewerThanRow(db: Database, s: State) {
    s.deviceID in db.latest ==> s.updatedAt.After(db.latest[s.deviceID].updatedAt)
  }

  predicate Replaces(db: Database, r: ObservationResult) {
    r.latestState.Some? && NewerThanRow(db, r.latestState.value)
  }

  predicate RecordsCommand(db: Database, r: ObservationResult) {
    Replaces(db, r) && r.command.Some?
  }

  /** Whether the transaction comes to the statement that fails. */
  predicate Strikes(db: Database, r: ObservationResult, failure: Failure) {
    match failure
    case NoFailure => false
    case BeginFails => true
    case TelemetryInsertFails => r.telemetry.Some?
    case RollbackFails => KnownEvent(db, r)
    case StateReadFails => !KnownEvent(db, r) && r.latestState.Some?
    case StateWriteFails => !KnownEvent(db, r) && Replaces(db, r)
    case CommandInsertFails => !KnownEvent(db, r) && RecordsCommand(db, r)
    case HealthUpsertFails => !KnownEvent(db, r) && !CommandConflicts(db, r)
    case CommitFails => !KnownEvent(db, r) && !CommandConflicts(db, r)
  }

  /** The database once every record of a new observation is in. */
  function Written(db: Database, r: ObservationResult): Database {
    Database(
      if r.telemetry.Some? then db.telemetry[r.telemetry.value.event.eventID := r.telemetry.value] else db.telemetry,
      if Replaces(db, r) then db.latest[r.latestState.value.deviceID := r.latestState.value] else db.latest,
      if RecordsCommand(db, r) then db.commands[r.command.value.eventID := r.command.value] else db.commands,
      db.health[r.deviceID := r.health])
  }

  predicate CommandConflicts(db: Database, r: ObservationResult) {
    RecordsCommand(db, r) && r.command.value.eventID in db.commands
  }

  /** All or nothing: an invalid result, a storage failure and a known event leave every table alone. */
  function Commit(db: Database, r: ObservationResult, failure: Failure): CommitOutcome {
    if !r.Valid() then CommitOutcome(db, Err(ResultError(r).value))
    else if Strikes(db, r, failure) then CommitOutcome(db, Err(StorageFailure))
    else if KnownEvent(db, r) then CommitOutcome(db, Ok(CommitDuplicate))
    else if CommandConflicts(db, r) then CommitOutcome(db, Err(ConstraintViolated))
    else CommitOutcome(Written(db, r), Ok(CommitStored))
  }

  /** `Snapshot`: driven by the health row, joined with the latest state when there is one. */
  function SnapshotOf(db: Database, deviceID: string): DeviceSnapshot {
    if deviceID !in db.health then ZERO_SNAPSHOT
    else if deviceID !in db.latest then DeviceSnapshot(ZERO_STATE, db.health[deviceID])
    else DeviceSnapshot(db.latest[deviceID].(deviceID := deviceID), db.health[deviceID])
  }

  /** A device without a health row is unknown: nothing of it is read back. */
  lemma UnknownDevice(db: Database, deviceID: string)
    requires deviceID !in db.health
    ensures SnapshotOf(db, deviceID)
            == DeviceSnapshot(State("", "", Time(0, true), 0.0, 0.0, 0.0, 0.0),
                              DeviceHealth(NoStatus, NoReason, Time(0, true), Time(0, true)))
  {
  }

  /** A valid result meets every column constraint once its telemetry is in, except that its command
      may still collide with an earlier one. */
  lemma ValidResultMeetsConstraints(db: Database, r: ObservationResult)
    requires r.Valid()
    ensures r.telemetry.Some? ==> TelemetryRowAllowed(r.telemetry.value)
    ensures r.latestState.Some? ==> StateRowAllowed(Written(db, r).telemetry, r.latestState.value)
    ensures r.command.Some? ==>
              (CommandRowAllowed(Written(db, r).telemetry, db.commands, r.command.value)
               <==> r.command.value.eventID !in db.commands)
    ensures HealthRowAllowed(r.deviceID, r.health)
  {
    ValidIffWellShaped(r);
    GoNonBlankIsSqlNonBlank(r.deviceID);
    if r.telemetry.Some? {
      GoNonBlankIsSqlNonBlank(r.telemetry.value.event.eventID);
    }
  }

  /** The answer to a valid result, in the order of the statements. */
  lemma CommitCases(db: Database, r: ObservationResult, failure: Failure)
    requires r.Valid() && !failure.BeginFails?
    ensures var status := Commit(db, r, failure).status;
            if r.telemetry.Some? && failure.TelemetryInsertFails? then status == Err(StorageFailure)
            else if KnownEvent(db, r) then
              status == if failure.RollbackFails? then Err(StorageFailure) else Ok(CommitDuplicate)
            else if r.latestState.Some? && failure.StateReadFails? then status == Err(StorageFailure)
            else if Replaces(db, r) && failure.StateWriteFails? then status == Err(StorageFailure)
            else if RecordsCommand(db, r) && failure.CommandInsertFails? then status == Err(StorageFailure)
            else if RecordsCommand(db, r) && r.command.value.eventID in db.commands then
              status == Err(ConstraintViolated)
            else
              status == if failure.HealthUpsertFails? || failure.CommitFails? then Err(StorageFailure)
                        else Ok(CommitStored)
  {
    hide ResultError, NewerThanRow;
  }

  // ---------------------------------------------------------------------------------------------
  // The statements, on the staged tables of one transaction

  class Transaction {
    var telemetry: map<string, TelemetryRecord>
    var latest: map<string, State>
    var commands: map<string, CommandRecord>
    var health: map<string, DeviceHealth>
    const failure: Failure

    function Staged(): Database
      reads this
    {
      Database(telemetry, latest, commands, health)
    }

    constructor (db: Database, failure: Failure)
      ensures Staged() == db && this.failure == failure
    {
      telemetry, latest, commands, health := db.telemetry, db.latest, db.commands, db.health;
      this.failure := failure;
    }

    /** `INSERT ... ON CONFLICT(event_id) DO NOTHING`, reporting whether a row went in. */
    method InsertTelemetry(record: TelemetryRecord) returns (stored: Result<bool>)
      modifies this`telemetry
      ensures failure.TelemetryInsertFails? ==> stored == Err(StorageFailure)
      ensures !failure.TelemetryInsertFails? ==>
                stored == if TelemetryRowAllowed(record) then Ok(record.event.eventID !in old(telemetry))
                          else Err(ConstraintViolated)
      ensures stored == Ok(true) ==> telemetry == old(telemetry)[record.event.eventID := record]
      ensures stored != Ok(true) ==> telemetry == old(telemetry)
    {
      if failure.TelemetryInsertFails? {
        return Err(StorageFailure);
      }
      if !TelemetryRowAllowed(record) {
        return Err(ConstraintViolated);
      }
      if record.event.eventID in telemetry {
        return Ok(false);
      }
      telemetry := telemetry[record.event.eventID := record];
      return Ok(true);
    }

    method ReplaceLatestStateIfNewer(state: State) returns (applied: Result<bool>)
      modifies this`latest
      ensures failure.StateReadFails? ==> applied == Err(StorageFailure)
      ensures !failure.StateReadFails? && !NewerThanRow(old(Staged()), state) ==> applied == Ok(false)
      ensures failure.StateWriteFails? && NewerThanRow(old(Staged()), state) ==> applied == Err(StorageFailure)
      ensures !failure.StateReadFails? && !failure.StateWriteFails? && NewerThanRow(old(Staged()), state) ==>
                applied == if StateRowAllowed(telemetry, state) then Ok(true) else Err(ConstraintViolated)
      ensures applied == Ok(true) ==> latest == old(latest)[state.deviceID := state]
      ensures applied != Ok(true) ==> latest == old(latest)
    {
      if failure.StateReadFails? {
        return Err(StorageFailure);
      }
      if state.deviceID in latest {
        var current := latest[state.deviceID].updatedAt;
        if !state.updatedAt.After(current) {
          return Ok(false);
        }
      }
      if failure.StateWriteFails? {
        return Err(StorageFailure);
      }
      if !StateRowAllowed(telemetry, state) {
        return Err(ConstraintViolated);
      }
      latest := latest[state.deviceID := state];
      return Ok(true);
    }

    method InsertCommand(record: CommandRecord) returns (err: Option<Reason>)
      modifies this`commands
      ensures failure.CommandInsertFails? ==> err == Some(StorageFailure)
      ensures !failure.CommandInsertFails? ==>
                err == if CommandRowAllowed(telemetry, old(commands), record) then None else Some(ConstraintViolated)
      ensures commands == if err.None? then old(commands)[record.eventID := record] else old(commands)
    {
      if failure.CommandInsertFails? {
        return Some(StorageFailure);
      }
      if !CommandRowAllowed(telemetry, commands, record) {
        return Some(ConstraintViolated);
      }
      commands := commands[record.eventID := record];
      return None;
    }

    method UpsertHealth(deviceID: string, row: DeviceHealth) returns (err: Option<Reason>)
      modifies this`health
      ensures failure.HealthUpsertFails? ==> err == Some(StorageFailure)
      ensures !failure.HealthUpsertFails? ==>
                err == if HealthRowAllowed(deviceID, row) then None else Some(ConstraintViolated)
      ensures health == if err.None? then old(health)[deviceID := row] else old(health)
    {
      if failure.HealthUpsertFails? {
        return Some(StorageFailure);
      }
      if !HealthRowAllowed(deviceID, row) {
        return Some(ConstraintViolated);
      }
      health := health[deviceID := row];
      return None;
    }

    /** The statements of one commit, up to and including the commit itself; the staged tables count
        only when the result is `CommitStored`. */
    method Execute(result: ObservationResult) returns (status: Result<CommitStatus>)
      requires result.Valid() && !failure.BeginFails?
      modifies this
      ensures status == Commit(old(Staged()), result, failure).status
      ensures status == Ok(CommitStored) ==> Staged() == Written(old(Staged()), result)
    {
      ValidResultMeetsConstraints(Staged(), result);
      ValidIffWellShaped(result);
      CommitCases(Staged(), result, failure);
      hide WellShaped, ResultError, TelemetryRowAllowed, CommandRowAllowed, HealthRowAllowed, StateRowAllowed, Commit,
        Strikes, CommandConflicts, SqlNonBlank, SqlTrimmed;
      if result.telemetry.Some? {
        var stored := InsertTelemetry(result.telemetry.value);
        if stored.Err? {
          return Err(stored.error);
        }
        if !stored.value {
          return if failure.RollbackFails? then Err(StorageFailure) else Ok(CommitDuplicate);
        }
      }
      if result.latestState.Some? {
        var applied := ReplaceLatestStateIfNewer(result.latestState.value);
        if applied.Err? {
          return Err(applied.error);
        }
        if applied.value && result.command.Some? {
          var err := InsertCommand(result.command.value);
          if err.Some? {
            return Err(err.value);
          }
        }
      }
      var err := UpsertHealth(result.deviceID, result.health);
      if err.Some? {
        return Err(err.value);
      }
      return if failure.CommitFails? then Err(StorageFailure) else Ok(CommitStored);
    }
  }

  class Repository {
    var telemetry: map<string, TelemetryRecord>
    var latest: map<string, State>
    var commands: map<string, CommandRecord>
    var health: map<string, DeviceHealth>

    function Contents(): Database
      reads this
    {
      Database(telemetry, latest, commands, health)
    }

    constructor (db: Database)
      ensures Contents() == db
    {
      telemetry, latest, commands, health := db.telemetry, db.latest, db.commands, db.health;
    }

    /** The read itself may fail, or a stored timestamp may not parse. */
    method Snapshot(deviceID: string, fails: bool) returns (snapshot: Result<DeviceSnapshot>, found: bool)
      ensures fails ==> snapshot == Err(StorageFailure) && !found
      ensures !fails ==> snapshot == Ok(SnapshotOf(Contents(), deviceID)) && (found <==> deviceID in health)
    {
      if fails {
        return Err(StorageFailure), false;
      }
      if deviceID !in health {
        return Ok(ZERO_SNAPSHOT), false;
      }
      var row := DeviceSnapshot(ZERO_STATE, health[deviceID]);
      if deviceID in latest {
        var state := latest[deviceID];
        row := row.(state := State(
          state.lastEventID, deviceID, state.updatedAt, state.pvPowerKW, state.loadPowerKW, state.batterySOCPercent,
          state.priceEURPerKWh));
      }
      return Ok(row), true;
    }

    /** One transaction; returning early drops the staged tables, which is the deferred roll-back. */
    method CommitProcessing(result: ObservationResult, failure: Failure) returns (status: Result<CommitStatus>)
      modifies this
      ensures CommitOutcome(Contents(), status) == Commit(old(Contents()), result, failure)
    {
      if ResultError(result).Some? {
        return Err(ResultError(result).value);
      }
      if failure.BeginFails? {
        return Err(StorageFailure);
      }
      var tx := new Transaction(Contents(), failure);
      status := tx.Execute(result);
      if status == Ok(CommitStored) {
        telemetry, latest, commands, health := tx.telemetry, tx.latest, tx.commands, tx.health;
      }
    }
  }
}
