/** Schema migrations: one transaction that checks the applied history against the known list and
    applies what is missing, and what the second migration does for databases older than health. */
module Migrations {
  import opened Basics
  import opened Observations
  import opened LatestState
  import opened Health
  import opened Classifier
  import opened Contracts
  import opened Storage
  import opened Integrity

  /** A telemetry row before dispositions existed. */
  datatype LegacyTelemetry = LegacyTelemetry(event: Telemetry, receivedAt: Time)

  /** The tables at each schema version. */
  datatype Tables =
    | NoTables
    | FirstTables(
        telemetry: map<string, LegacyTelemetry>,
        latest: map<string, State>,
        commands: map<string, CommandRecord>)
    | CurrentTables(db: Database)

  /** A row of `schema_migrations`. */
  datatype AppliedRow = AppliedRow(version: int, name: string)

  /** A script either changes the tables or fails as a whole. */
  datatype Migration = Migration(version: int, name: string, script: Tables -> Option<Tables>)

  datatype Store = Store(tables: Tables, history: seq<AppliedRow>)

  /** `schema_migrations` has its version as primary key and is read in version order. */
  predicate Ordered(history: seq<AppliedRow>) {
    forall i, j :: 0 <= i < j < |history| ==> history[i].version < history[j].version
  }

  /** The program's own list counts its versions from 1. */
  predicate Numbered(known: seq<Migration>) {
    forall i :: 0 <= i < |known| ==> known[i].version == i + 1
  }

  function RowsOf(known: seq<Migration>): (rows: seq<AppliedRow>)
    ensures |rows| == |known|
  {
    seq(|known|, i requires 0 <= i < |known| => AppliedRow(known[i].version, known[i].name))
  }

  /** The tables after the given migrations, unless one of them fails. */
  function ApplyAll(tables: Tables, pending: seq<Migration>): Option<Tables>
    decreases |pending|
  {
    if pending == [] then Some(tables)
    else
      match pending[0].script(tables)
      case None => None
      case Some(next) => ApplyAll(next, pending[1..])
  }

  /** What makes a migration run succeed, in terms of the history alone and of the pending scripts. */
  predicate Migratable(known: seq<Migration>, store: Store) {
    && store.history <= RowsOf(known)
    && ApplyAll(store.tables, known[|store.history|..]).Some?
  }

  function Migrated(known: seq<Migration>, store: Store): Store
    requires Migratable(known, store)
  {
    Store(ApplyAll(store.tables, known[|store.history|..]).value, RowsOf(known))
  }

  class SchemaStore {
    var tables: Tables
    var history: seq<AppliedRow>

    function Contents(): Store
      reads this
    {
      Store(tables, history)
    }

    constructor (store: Store)
      ensures Contents() == store
    {
      tables, history := store.tables, store.history;
    }

    /** `appliedMigrations`: the recorded history, refused if it has a gap or is newer than the list. */
    method AppliedMigrations(known: seq<Migration>) returns (applied: Option<seq<AppliedRow>>)
      requires Ordered(history)
      ensures applied.Some? <==>
              |history| <= |known| && forall i :: 0 <= i < |history| ==> history[i].version == i + 1
      ensures applied.Some? ==> applied.value == history
    {
      var found := [];
      for i := 0 to |history|
        invariant found == history[..i]
        invariant i <= |known|
        invariant forall k :: 0 <= k < i ==> history[k].version == k + 1
      {
        var item := history[i];
        if item.version != |found| + 1 {
          return None;
        }
        if item.version > |known| {
          return None;
        }
        found := found + [item];
      }
      return Some(found);
    }

    /** `Migrate`, with a failure of storage itself before the given number of scripts, if any. */
    method Migrate(known: seq<Migration>, failBefore: Option<nat>) returns (ok: bool)
      requires Numbered(known) && Ordered(history)
      modifies this
      ensures ok ==> Migratable(known, old(Contents())) && Contents() == Migrated(known, old(Contents()))
      ensures !ok ==> Contents() == old(Contents())
      ensures failBefore.None? ==> (ok <==> Migratable(known, old(Contents())))
    {
      var applied := AppliedMigrations(known);
      if applied.None? {
        PrefixVersions(known, history);
        return false;
      }
      var staged, rows := tables, history;
      ghost var before := Contents();
      Unstarted(known, before);
      hide Staged, ApplyAll, RowsOf, Migratable, Migrated, Ordered, Numbered;
      for index := 0 to |known|
        invariant Contents() == before
        invariant Staged(known, before, Store(staged, rows), index)
      {
        var migration := known[index];
        StagedLength(known, before, Store(staged, rows), index);
        if index < |applied.value| {
          if applied.value[index].version != migration.version || applied.value[index].name != migration.name {
            Mismatched(known, before, index);
            return false;
          }
          Checked(known, before, Store(staged, rows), index);
        } else {
          if failBefore == Some(index) {
            return false;
          }
          var next := migration.script(staged);
          ScriptRun(known, before, Store(staged, rows), index);
          if next.None? {
            return false;
          }
          staged := next.value;
          rows := rows + [AppliedRow(migration.version, migration.name)];
        }
      }
      if failBefore.Some? && failBefore.value >= |known| {
        return false;
      }
      AllStaged(known, before, Store(staged, rows));
      tables, history := staged, rows;
      ok := true;
    }
  }

  /** The transaction before its `index`-th known migration: rows already applied are only checked, the
      others have run. */
  predicate Staged(known: seq<Migration>, before: Store, staged: Store, index: nat) {
    && |before.history| <= |known|
    && index <= |known|
    && (index <= |before.history| ==> staged == before && before.history[..index] == RowsOf(known)[..index])
    && (index >= |before.history| ==>
          && staged.history == RowsOf(known)[..index]
          && before.history <= RowsOf(known)
          && ApplyAll(before.tables, known[|before.history|..]) == ApplyAll(staged.tables, known[index..]))
  }

  lemma Unstarted(known: seq<Migration>, before: Store)
    requires |before.history| <= |known|
    ensures Staged(known, before, before, 0)
  {
  }

  lemma StagedLength(known: seq<Migration>, before: Store, staged: Store, index: nat)
    requires Staged(known, before, staged, index)
    ensures index < |known| <==> index < |RowsOf(known)|
  {
  }

  lemma Mismatched(known: seq<Migration>, before: Store, index: nat)
    requires index < |known| && index < |before.history|
    requires before.history[index] != AppliedRow(known[index].version, known[index].name)
    ensures !Migratable(known, before)
  {
    assert before.history[index] != RowsOf(known)[index];
  }

  lemma Checked(known: seq<Migration>, before: Store, staged: Store, index: nat)
    requires Staged(known, before, staged, index) && index < |known| && index < |before.history|
    requires before.history[index].version == known[index].version
    requires before.history[index].name == known[index].name
    ensures Staged(known, before, staged, index + 1)
  {
    assert before.history[..index + 1] == before.history[..index] + [before.history[index]];
    assert RowsOf(known)[..index + 1] == RowsOf(known)[..index] + [RowsOf(known)[index]];
    hide ApplyAll;
  }

  lemma ScriptRun(known: seq<Migration>, before: Store, staged: Store, index: nat)
    requires Staged(known, before, staged, index) && |before.history| <= index < |known|
    ensures var next := known[index].script(staged.tables);
            && (next.None? ==> !Migratable(known, before))
            && (next.Some? ==>
                  Staged(known, before,
                         Store(next.value, staged.history + [AppliedRow(known[index].version, known[index].name)]),
                         index + 1))
  {
    assert known[index..][1..] == known[index + 1..];
    assert RowsOf(known)[..index + 1] == RowsOf(known)[..index] + [RowsOf(known)[index]];
  }

  lemma AllStaged(known: seq<Migration>, before: Store, staged: Store)
    requires Staged(known, before, staged, |known|)
    ensures Migratable(known, before) && staged == Migrated(known, before)
  {
    assert known[|known|..] == [];
    assert RowsOf(known)[..|known|] == RowsOf(known);
  }

  lemma PrefixVersions(known: seq<Migration>, history: seq<AppliedRow>)
    requires Numbered(known)
    ensures history <= RowsOf(known) ==>
              |history| <= |known| && forall i :: 0 <= i < |history| ==> history[i].version == i + 1
  {
  }

  /** A migrated store is up to date: migrating again succeeds and changes nothing. */
  lemma MigratingAgainChangesNothing(known: seq<Migration>, store: Store)
    requires Numbered(known) && Migratable(known, store)
    ensures var done := Migrated(known, store);
            && done.history == RowsOf(known)
            && Ordered(done.history)
            && Migratable(known, done)
            && Migrated(known, done) == done
  {
    assert known[|known|..] == [];
  }

  // ---------------------------------------------------------------------------------------------
  // The program's own list

  function InitialSchema(tables: Tables): Option<Tables> {
    if tables.NoTables? then Some(FirstTables(map[], map[], map[])) else None
  }

  /** Adds dispositions, all accepted, and a health row for every latest state, seeded from the receive
      time of its event. */
  function AddDispositionsAndHealth(tables: Tables): Option<Tables> {
    match tables
    case FirstTables(telemetry, latest, commands) =>
      Some(CurrentTables(Database(
        map id | id in telemetry ::
          TelemetryRecord(telemetry[id].event, telemetry[id].receivedAt, Accepted, NoReason),
        latest,
        commands,
        map d | d in latest && latest[d].lastEventID in telemetry ::
          DeviceHealth(Online, NoReason, telemetry[latest[d].lastEventID].receivedAt,
                       telemetry[latest[d].lastEventID].receivedAt))))
    case _ => None
  }

  const MIGRATIONS: seq<Migration> :=
    [ Migration(1, "initial durable processing schema", InitialSchema),
      Migration(2, "unreliable telemetry dispositions and device health", AddDispositionsAndHealth) ]

  /** What the first schema's foreign keys and its program guaranteed. */
  predicate LegacyIntact(tables: Tables) {
    && tables.FirstTables?
    && (forall id :: id in tables.telemetry ==>
          && tables.telemetry[id].event.eventID == id
          && tables.telemetry[id].event.Valid()
          && tables.telemetry[id].event.eventTime.Durable()
          && tables.telemetry[id].receivedAt.Durable())
    && (forall id :: id in tables.commands ==>
          tables.commands[id].eventID == id && id in tables.telemetry && tables.commands[id].command.Valid())
    && (forall d :: d in tables.latest ==>
          && d != ""
          && tables.latest[d].deviceID == d
          && tables.latest[d].lastEventID in tables.telemetry
          && tables.latest[d] == StateOf(tables.telemetry[tables.latest[d].lastEventID].event))
  }

  /** Every row of a first-version database is still there: commands and states as they were, every event
      with its receive time and now accepted without a reason, and beside each state, and nowhere else, a
      health row: `online` since its event was received, which is also the last contact. */
  predicate KeepsRows(tables: Tables, db: Database)
    requires LegacyIntact(tables)
  {
    && db.commands == tables.commands
    && db.latest == tables.latest
    && db.telemetry.Keys == tables.telemetry.Keys
    && (forall id :: id in db.telemetry ==>
          && db.telemetry[id].event == tables.telemetry[id].event
          && db.telemetry[id].receivedAt == tables.telemetry[id].receivedAt
          && db.telemetry[id].disposition == Accepted
          && db.telemetry[id].dispositionReason == NoReason)
    && db.health.Keys == tables.latest.Keys
    && (forall d :: d in db.health ==>
          && db.health[d].status == Online
          && db.health[d].reason == NoReason
          && db.health[d].transitionTime == tables.telemetry[tables.latest[d].lastEventID].receivedAt
          && db.health[d].lastContactAt == db.health[d].transitionTime)
  }

  lemma BackfillIsIntact(tables: Tables)
    requires LegacyIntact(tables)
    ensures AddDispositionsAndHealth(tables).Some?
    ensures var migrated := AddDispositionsAndHealth(tables).value;
            migrated.CurrentTables? && Intact(migrated.db) && KeepsRows(tables, migrated.db)
  {
  }

  lemma NothingToKeep(tables: Tables, db: Database)
    requires LegacyIntact(tables) && KeepsRows(tables, db)
    requires tables == FirstTables(map[], map[], map[])
    ensures db == EMPTY_DATABASE
  {
    hide LegacyIntact;
  }

  /** No state is hidden: the snapshot of a device shows its latest state whenever there is one. */
  predicate ShowsEveryState(db: Database) {
    forall d :: d in db.latest ==>
      d in db.health && SnapshotOf(db, d) == DeviceSnapshot(db.latest[d], db.health[d])
  }

  lemma IntactShowsEveryState(db: Database)
    requires Intact(db)
    ensures ShowsEveryState(db)
  {
  }

  lemma FromScratch(second: Tables)
    requires ApplyAll(FirstTables(map[], map[], map[]), MIGRATIONS[1..]) == Some(second)
    ensures ApplyAll(NoTables, MIGRATIONS[0..]) == Some(second)
  {
    assert MIGRATIONS[0..] == MIGRATIONS;
    hide AddDispositionsAndHealth;
  }

  /** A store whose history is a prefix of the list migrates exactly if its tables are what that history made: no
      script runs on the tables of another version. */
  lemma MigratesIffTablesMatch(store: Store)
    requires store.history <= RowsOf(MIGRATIONS)
    ensures Migratable(MIGRATIONS, store) <==>
            || (|store.history| == 0 && store.tables == NoTables)
            || (|store.history| == 1 && store.tables.FirstTables?)
            || |store.history| == 2
  {
    var pending := MIGRATIONS[|store.history|..];
    if |store.history| == 0 {
      assert pending == MIGRATIONS;
      if store.tables.NoTables? {
        var rest := pending[1..];
        var first := FirstTables(map[], map[], map[]);
        assert rest[0] == MIGRATIONS[1] && rest[1..] == [];
        assert ApplyAll(first, rest) == AddDispositionsAndHealth(first);
      }
    } else if |store.history| == 1 {
      assert pending[0] == MIGRATIONS[1] && pending[1..] == [];
      assert ApplyAll(store.tables, pending) == AddDispositionsAndHealth(store.tables);
    } else {
      assert pending == [];
    }
  }

  /** A database of the first version, or none at all, always migrates; no row of it is lost or changed; and no
      snapshot hides a state, then or after any sequence of commits, failing or not. */
  lemma MigratedDatabaseShowsEveryState(store: Store, calls: seq<Call>)
    requires (store.tables.NoTables? && store.history == [])
             || (LegacyIntact(store.tables) && store.history == RowsOf(MIGRATIONS)[..1])
    ensures Migratable(MIGRATIONS, store)
    ensures var done := Migrated(MIGRATIONS, store);
            && done.tables.CurrentTables?
            && Intact(done.tables.db)
            && done.history ==
               [ AppliedRow(1, "initial durable processing schema"),
                 AppliedRow(2, "unreliable telemetry dispositions and device health") ]
            && (store.tables.FirstTables? ==> KeepsRows(store.tables, done.tables.db))
            && (store.tables.NoTables? ==> done.tables.db == EMPTY_DATABASE)
            && ShowsEveryState(CommitAll(done.tables.db, calls))
  {
    var first := if store.tables.NoTables? then InitialSchema(store.tables).value else store.tables;
    assert LegacyIntact(first);
    BackfillIsIntact(first);
    var second := AddDispositionsAndHealth(first).value;
    assert ApplyAll(first, MIGRATIONS[1..]) == Some(second) by {
      assert MIGRATIONS[1..][1..] == [];
    }
    if store.tables.NoTables? {
      FromScratch(second);
    }
    CommitAllKeepsIntact(second.db, calls);
    IntactShowsEveryState(CommitAll(second.db, calls));
    if store.tables.NoTables? {
      NothingToKeep(first, second.db);
    }
    hide Intact, SnapshotOf, LegacyIntact, Commit, KeepsRows, AddDispositionsAndHealth;
  }
}
