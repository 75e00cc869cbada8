/**
 The atomic transition of the legacy database, its faults, and the read-only classifier that decides a
 lost commit acknowledgement.

 The migration and quarantine library is not shown, so it may do anything to the open transaction; what
 is proved follows from the checks the worker makes. A digest stands for the content it digests.
 */
module Transition {
  import opened Outbox
  import opened Wrappers

  /** Migrations by their number: 001 to 012 are the legacy profile. */
  const LEGACY_MIGRATIONS: seq<nat> := [1, 2, 3, 4, 5, 6, 7, 8, 9, 10, 11, 12]
  const NEW_MIGRATIONS: seq<nat> := [13, 14, 15, 16, 18, 26, 28]
  const RUNTIME_PROFILE: seq<nat> := LEGACY_MIGRATIONS + NEW_MIGRATIONS

  datatype Table = SchemaMigrations | MessageOutbox | Legacy(name: string) | CanaryDatabaseIdentity | NewTable(k: nat)

  /** The thirteen tables the new migrations add. */
  const NEW_TABLES: set<Table> := {CanaryDatabaseIdentity} + set k | 0 <= k < 12 :: NewTable(k)

  datatype Stage =
    | AfterMigration(number: nat) | AfterMigrations | AfterQuarantine | AfterRoles | BeforeCommit
    | AfterCommitResponseLoss

  datatype Db = Db(
    schema: string, tables: map<Table, seq<Row>>, sequences: map<string, string>, maxEvent: int, roles: set<string>)

  datatype History = History(
    migrations: seq<nat>, schema: string, tables: map<Table, multiset<Row>>,
    sequences: map<string, string>, maxEvent: int)

  datatype Plan = Plan(
    tables: set<Table>, accepted: map<Table, multiset<Row>>, sequences: map<string, string>,
    migrations: seq<nat>, schema: string, snapshot: (map<Table, multiset<Row>>, map<string, string>, seq<nat>, string),
    quarantine: Quarantine, primaryAuthorized: bool)

  datatype Intent = Intent(
    binding: Plan, legacyHistory: History, runtimeHistory: History, original: Row, preparedAt: int)

  // ---- What the worker reads.

  /** The recorded versions; reading them in order compares them as a multiset. */
  function Versions(rows: seq<Row>): seq<Json> {
    seq(|rows|, i requires 0 <= i < |rows| => Get(rows[i], Version))
  }

  function Numbers(numbers: seq<nat>): seq<Json> {
    seq(|numbers|, i requires 0 <= i < |numbers| => Num(numbers[i]))
  }

  predicate Runs(db: Db, profile: seq<nat>) {
    SchemaMigrations in db.tables && multiset(Versions(db.tables[SchemaMigrations])) == multiset(Numbers(profile))
  }

  /** Every table as the multiset of its rows. */
  function Contents(db: Db): map<Table, multiset<Row>> {
    map t | t in db.tables :: multiset(db.tables[t])
  }

  /** `_history`: none when the table inventory or the migration profile differs. */
  function ReadHistory(db: Db, plan: Plan, runtime: bool): Option<History> {
    var profile := if runtime then RUNTIME_PROFILE else LEGACY_MIGRATIONS;
    if db.tables.Keys != (if runtime then plan.tables + NEW_TABLES else plan.tables) || !Runs(db, profile) then None
    else Some(History(profile, db.schema, Contents(db), db.sequences, db.maxEvent))
  }

  predicate CompareAccepted(h: History, plan: Plan) {
    && h.tables == plan.accepted
    && h.sequences == plan.sequences
    && h.migrations == plan.migrations
    && h.schema == plan.schema
    && plan.snapshot == (h.tables, h.sequences, h.migrations, h.schema)
  }

  function OnlyLegacy(rows: seq<Row>): seq<Row> {
    if rows == [] then []
    else (if IsLegacyVersion(Get(rows[0], Version)) then [rows[0]] else []) + OnlyLegacy(rows[1..])
  }

  predicate IsLegacyVersion(version: Json) {
    version.Num? && version.n in LEGACY_MIGRATIONS
  }

  function ProjectedTable(db: Db, table: Table, original: Row): multiset<Row>
    requires table in db.tables
  {
    if table == SchemaMigrations then multiset(OnlyLegacy(db.tables[table]))
    else if table == MessageOutbox then multiset(ProjectAll(original, db.tables[table]))
    else multiset(db.tables[table])
  }

  function ProjectedTables(db: Db, tables: set<Table>, original: Row): map<Table, multiset<Row>>
    requires tables <= db.tables.Keys
  {
    map t | t in tables :: ProjectedTable(db, t, original)
  }

  /** `_projected_history`: every legacy table again, with the one allowed row restored. */
  function Projected(db: Db, plan: Plan, original: Row): Option<History> {
    if !(plan.tables <= db.tables.Keys) then None
    else Some(History(LEGACY_MIGRATIONS, plan.schema, ProjectedTables(db, plan.tables, original),
                      db.sequences, db.maxEvent))
  }

  predicate CompareProjection(h: History, plan: Plan) {
    && h.tables == plan.accepted
    && h.sequences == plan.sequences
    && h.migrations == plan.migrations
    && plan.snapshot == (h.tables, h.sequences, h.migrations, h.schema)
  }

  function Reconciled(rows: seq<Row>): seq<Row> {
    if rows == [] then []
    else (if Get(rows[0], ReconciliationId) != Null then [rows[0]] else []) + Reconciled(rows[1..])
  }

  /** `_quarantined_row`. */
  function QuarantinedRow(db: Db): Option<Row> {
    if MessageOutbox !in db.tables || |Reconciled(db.tables[MessageOutbox])| != 1 then None
    else
      var row := Reconciled(db.tables[MessageOutbox])[0];
      if Get(row, ReconciliationState) == PublishOutcomeUnknown && Get(row, LeaseOwner) == Null && Get(row, LeaseUntil) == Null
      then Some(row) else None
  }

  function Expired(rows: seq<Row>, past: Json -> bool): seq<Row> {
    if rows == [] then []
    else
      var until := Get(rows[0], LeaseUntil);
      (if until != Null && past(until) then [rows[0]] else []) + Expired(rows[1..], past)
  }

  /** What Python takes for true. */
  predicate Truthy(value: Json) {
    value != Null && value != Text("") && value != Num(0)
  }

  /** The columns of a complete outbox row. */
  const REQUIRED: set<Column> :=
    {RowId, Named("producer"), Named("message_id"), Named("topic"), Named("payload"), Named("payload_sha256"),
     Named("publish_attempts"), PublishedAt, DeadLetteredAt, LeaseOwner, LeaseUntil, LastError}

  /** `_exact_expired_row`: the one row with an expired lease, complete and not yet acknowledged. */
  function ExpiredRow(db: Db, past: Json -> bool): Option<Row> {
    if MessageOutbox !in db.tables || |Expired(db.tables[MessageOutbox], past)| != 1 then None
    else
      var row := Expired(db.tables[MessageOutbox], past)[0];
      if REQUIRED <= row.Keys && row[PublishedAt] == Null && row[DeadLetteredAt] == Null && Truthy(row[LeaseOwner])
      then Some(row) else None
  }

  /** `_check_new_relations`. */
  predicate NewRelationsEmpty(h: History) {
    forall t :: t in NEW_TABLES ==>
      t in h.tables && |h.tables[t]| == if t == CanaryDatabaseIdentity then 1 else 0
  }

  /** The plan without the bit that may be added after clone acceptance. */
  function Binding(plan: Plan): Plan {
    plan.(primaryAuthorized := false)
  }

  /** `db` is the state the intent announces, and every check the worker makes holds of it. */
  predicate Describes(intent: Intent, db: Db, plan: Plan) {
    && intent.binding == Binding(plan)
    && ReadHistory(db, plan, true) == Some(intent.runtimeHistory)
    && NewRelationsEmpty(intent.runtimeHistory)
    && QuarantinedRow(db).Some?
    && ExactQuarantine(intent.original, QuarantinedRow(db).value, plan.quarantine)
    && Projected(db, plan, intent.original) == Some(intent.legacyHistory)
    && CompareAccepted(intent.legacyHistory, plan)
  }

  /** The intent was computed from this accepted legacy state. */
  predicate Announces(intent: Intent, db: Db, plan: Plan, past: Json -> bool) {
    && Baseline(db, plan)
    && ReadHistory(db, plan, false) == Some(intent.legacyHistory)
    && ExpiredRow(db, past) == Some(intent.original)
  }

  /** The accepted starting point. */
  predicate Baseline(db: Db, plan: Plan) {
    ReadHistory(db, plan, false).Some? && CompareAccepted(ReadHistory(db, plan, false).value, plan)
  }

  // ---- The classifier.

  datatype Classification = RolledBackExact | CommittedExact | Indeterminate | Rejected

  /** `_classify_readonly` on a fresh read-only view; `Rejected` is a raised error. */
  function Classify(db: Db, plan: Plan, intent: Intent): Classification {
    if Runs(db, LEGACY_MIGRATIONS) then
      if Baseline(db, plan) then RolledBackExact else Rejected
    else if !Runs(db, RUNTIME_PROFILE) then Indeterminate
    else
      var history := ReadHistory(db, plan, true);
      var row := QuarantinedRow(db);
      var projected := Projected(db, plan, intent.original);
      if history.None? || row.None? || projected.None? then Rejected
      else if history.value != intent.runtimeHistory || intent.binding != Binding(plan)
              || Get(row.value, ReconciliationId) != Text(plan.quarantine.reconciliationId) then Indeterminate
      else if CompareProjection(projected.value, plan) then CommittedExact
      else Rejected
  }

  lemma ProfilesDiffer(db: Db)
    requires Runs(db, RUNTIME_PROFILE)
    ensures !Runs(db, LEGACY_MIGRATIONS)
  {
    assert |multiset(Numbers(RUNTIME_PROFILE))| == 19;
    assert |multiset(Numbers(LEGACY_MIGRATIONS))| == 12;
  }

  /** Rolled back exactly means: the accepted baseline. */
  lemma RolledBackMeansBaseline(db: Db, plan: Plan, intent: Intent)
    ensures Classify(db, plan, intent) == RolledBackExact <==> Baseline(db, plan)
  {
  }

  /** A described state is classified as committed exactly. */
  lemma DescribedIsCommitted(db: Db, plan: Plan, intent: Intent)
    requires Describes(intent, db, plan)
    ensures Classify(db, plan, intent) == CommittedExact
  {
    ProfilesDiffer(db);
  }

  /** Committed exactly means: the recorded history, projecting onto the accepted one, and not the baseline. */
  lemma CommittedMeansHistory(db: Db, plan: Plan, intent: Intent)
    requires Classify(db, plan, intent) == CommittedExact
    ensures ReadHistory(db, plan, true) == Some(intent.runtimeHistory) && !Baseline(db, plan)
    ensures var p := Projected(db, plan, intent.original); p.Some? && CompareProjection(p.value, plan)
  {
  }

  /** On the two states an announced transition can leave behind, the classifier tells which one it is. */
  lemma ClassifierDecides(before: Db, after: Db, plan: Plan, intent: Intent, past: Json -> bool)
    requires Announces(intent, before, plan, past) && (after == before || Describes(intent, after, plan))
    ensures Classify(after, plan, intent) == RolledBackExact <==> after == before
    ensures Classify(after, plan, intent) == CommittedExact <==> Describes(intent, after, plan)
  {
    RolledBackMeansBaseline(after, plan, intent);
    if Describes(intent, after, plan) {
      DescribedIsCommitted(after, plan, intent);
    }
  }

  /** Role grants come after the recorded history and do not disturb the classification. */
  lemma RolesDoNotMatter(db: Db, plan: Plan, intent: Intent, roles: set<string>)
    ensures Classify(db.(roles := roles), plan, intent) == Classify(db, plan, intent)
    ensures Describes(intent, db, plan) ==> Describes(intent, db.(roles := roles), plan)
  {
    ClassifyWithoutRoles(db, plan, intent, roles);
    if Describes(intent, db, plan) {
      DescribesWithoutRoles(db, plan, intent, roles);
    }
  }

  lemma ClassifyWithoutRoles(db: Db, plan: Plan, intent: Intent, roles: set<string>)
    ensures Classify(db.(roles := roles), plan, intent) == Classify(db, plan, intent)
  {
    HistoryWithoutRoles(db, plan, true, roles);
    HistoryWithoutRoles(db, plan, false, roles);
    ProjectedWithoutRoles(db, plan, intent.original, roles);
  }

  lemma DescribesWithoutRoles(db: Db, plan: Plan, intent: Intent, roles: set<string>)
    requires Describes(intent, db, plan)
    ensures Describes(intent, db.(roles := roles), plan)
  {
    HistoryWithoutRoles(db, plan, true, roles);
    ProjectedWithoutRoles(db, plan, intent.original, roles);
  }

  lemma HistoryWithoutRoles(db: Db, plan: Plan, runtime: bool, roles: set<string>)
    ensures ReadHistory(db.(roles := roles), plan, runtime) == ReadHistory(db, plan, runtime)
  {
    assert Contents(db.(roles := roles)) == Contents(db);
  }

  lemma ProjectedWithoutRoles(db: Db, plan: Plan, original: Row, roles: set<string>)
    ensures Projected(db.(roles := roles), plan, original) == Projected(db, plan, original)
  {
    var granted := db.(roles := roles);
    if plan.tables <= db.tables.Keys {
      forall t | t in plan.tables ensures ProjectedTable(granted, t, original) == ProjectedTable(db, t, original) {
      }
      assert ProjectedTables(granted, plan.tables, original) == ProjectedTables(db, plan.tables, original);
    }
  }

  // ---- What a committed transition changed in the legacy data.

  lemma {:induction false} ReconciledRows(rows: seq<Row>, i: nat)
    requires i < |rows| && Get(rows[i], ReconciliationId) != Null
    ensures rows[i] in Reconciled(rows)
  {
    if i > 0 {
      ReconciledRows(rows[1..], i - 1);
    }
  }

  lemma {:induction false} ReconciledAreRows(rows: seq<Row>, row: Row)
    requires row in Reconciled(rows)
    ensures row in rows && Get(row, ReconciliationId) != Null
  {
    if row !in (if Get(rows[0], ReconciliationId) != Null then [rows[0]] else []) {
      ReconciledAreRows(rows[1..], row);
    }
  }

  lemma QuarantinedIsOnly(db: Db)
    requires QuarantinedRow(db).Some?
    ensures OnlyQuarantined(db.tables[MessageOutbox], QuarantinedRow(db).value)
  {
    var rows, row := db.tables[MessageOutbox], QuarantinedRow(db).value;
    assert row in Reconciled(rows);
    ReconciledAreRows(rows, row);
    forall i | 0 <= i < |rows| && Get(rows[i], ReconciliationId) != Null
      ensures rows[i] == row
    {
      ReconciledRows(rows, i);
    }
  }

  /**
   From the announced baseline to a described state, every other legacy table, every sequence and the
   event counter are as before, and the recorded legacy migrations are still there.
   */
  lemma OtherDataIsUnchanged(before: Db, after: Db, plan: Plan, intent: Intent, past: Json -> bool)
    requires Announces(intent, before, plan, past) && Describes(intent, after, plan)
    ensures forall t :: t in plan.tables && t != MessageOutbox && t != SchemaMigrations ==>
              t in before.tables && t in after.tables && multiset(after.tables[t]) == multiset(before.tables[t])
    ensures SchemaMigrations in plan.tables ==>
              && SchemaMigrations in before.tables && SchemaMigrations in after.tables
              && multiset(OnlyLegacy(after.tables[SchemaMigrations])) == multiset(before.tables[SchemaMigrations])
    ensures after.sequences == before.sequences && after.maxEvent == before.maxEvent
  {
    forall t | t in plan.tables
      ensures t in before.tables && t in after.tables
      ensures ProjectedTable(after, t, intent.original) == multiset(before.tables[t])
    {
      ProjectedIsLegacy(before, after, plan, intent, t);
    }
  }

  /**
   And the outbox rows correspond one to one, with only the target's lease columns changed. Ids are unique
   because the id is the primary key.
   */
  lemma OutboxIsPinned(before: Db, after: Db, plan: Plan, intent: Intent, past: Json -> bool)
    requires Announces(intent, before, plan, past) && Describes(intent, after, plan) && MessageOutbox in plan.tables
    requires UniqueIds(after.tables[MessageOutbox])
    requires forall row :: row in before.tables[MessageOutbox] ==> LegacyRow(row)
    ensures TablePinned(before.tables[MessageOutbox], after.tables[MessageOutbox], intent.original,
                        QuarantinedRow(after).value, plan.quarantine)
  {
    var original, q := intent.original, QuarantinedRow(after).value;
    assert ExactQuarantine(original, q, plan.quarantine);
    OutboxIsProjected(before, after, plan, intent, past);
    ProjectionPinsQuarantine(before.tables[MessageOutbox], after.tables[MessageOutbox], original, q, plan.quarantine);
  }

  lemma OutboxIsProjected(before: Db, after: Db, plan: Plan, intent: Intent, past: Json -> bool)
    requires Announces(intent, before, plan, past) && Describes(intent, after, plan) && MessageOutbox in plan.tables
    ensures MessageOutbox in before.tables && MessageOutbox in after.tables
    ensures multiset(ProjectAll(intent.original, after.tables[MessageOutbox])) == multiset(before.tables[MessageOutbox])
    ensures OnlyQuarantined(after.tables[MessageOutbox], QuarantinedRow(after).value)
    ensures intent.original in before.tables[MessageOutbox]
  {
    ProjectedIsLegacy(before, after, plan, intent, MessageOutbox);
    QuarantinedIsOnly(after);
    ExpiredIsRow(before, past);
  }

  lemma ProjectedIsLegacy(before: Db, after: Db, plan: Plan, intent: Intent, t: Table)
    requires ReadHistory(before, plan, false) == Some(intent.legacyHistory) && Describes(intent, after, plan)
    requires t in plan.tables
    ensures t in before.tables && t in after.tables
    ensures ProjectedTable(after, t, intent.original) == multiset(before.tables[t])
  {
    assert Projected(after, plan, intent.original).value.tables[t] == intent.legacyHistory.tables[t];
  }

  lemma {:induction false} ExpiredAreRows(rows: seq<Row>, past: Json -> bool, row: Row)
    requires row in Expired(rows, past)
    ensures row in rows
  {
    if row != rows[0] {
      ExpiredAreRows(rows[1..], past, row);
    }
  }

  lemma ExpiredIsRow(db: Db, past: Json -> bool)
    requires ExpiredRow(db, past).Some?
    ensures ExpiredRow(db, past).value in db.tables[MessageOutbox]
  {
    ExpiredAreRows(db.tables[MessageOutbox], past, ExpiredRow(db, past).value);
  }

  // ---- What is read, accepted and described, on the tables themselves.

  /** The accepted starting point: the legacy migrations, and every table, sequence and text as the plan recorded it. */
  lemma BaselineMeans(db: Db, plan: Plan)
    ensures Baseline(db, plan) <==>
              && db.tables.Keys == plan.tables && plan.tables == plan.accepted.Keys
              && (forall t :: t in plan.tables ==> multiset(db.tables[t]) == plan.accepted[t])
              && SchemaMigrations in plan.tables
              && multiset(Versions(db.tables[SchemaMigrations])) == multiset(Numbers(LEGACY_MIGRATIONS))
              && db.sequences == plan.sequences && db.schema == plan.schema && plan.migrations == LEGACY_MIGRATIONS
              && plan.snapshot == (plan.accepted, plan.sequences, plan.migrations, plan.schema)
  {
    if db.tables.Keys == plan.tables && plan.tables == plan.accepted.Keys {
      assert Contents(db) == plan.accepted <==> forall t :: t in plan.tables ==> multiset(db.tables[t]) == plan.accepted[t];
    }
  }

  lemma OneBefore(first: Row, rest: seq<Row>, row: Row)
    ensures [first] + rest == [row] <==> first == row && rest == []
  {
    if [first] + rest == [row] {
      assert |rest| == 0 && first == ([first] + rest)[0];
    }
  }

  lemma {:induction false} OneReconciled(rows: seq<Row>, row: Row)
    ensures Reconciled(rows) == [row] <==> exists i :: 0 <= i < |rows| && rows[i] == row && OnlyMarked(rows, i)
  {
    if rows != [] {
      var rest := rows[1..];
      if Get(rows[0], ReconciliationId) != Null {
        NoneReconciled(rest);
        OnlyFirstMarked(rows);
        OneBefore(rows[0], Reconciled(rest), row);
        assert Reconciled(rows) == [rows[0]] + Reconciled(rest);
        assert (forall i :: 0 <= i < |rows| && OnlyMarked(rows, i) ==> i == 0);
      } else {
        OneReconciled(rest, row);
        forall i | 0 <= i < |rest| ensures OnlyMarked(rest, i) <==> OnlyMarked(rows, i + 1) {
          OnlyMarkedMoves(rows, i);
        }
        if i :| 0 <= i < |rows| && rows[i] == row && OnlyMarked(rows, i) {
          assert i > 0 && rest[i - 1] == row && OnlyMarked(rest, i - 1);
        }
        if i :| 0 <= i < |rest| && rest[i] == row && OnlyMarked(rest, i) {
          assert rows[i + 1] == row && OnlyMarked(rows, i + 1);
        }
      }
    }
  }

  lemma {:induction false} NoneReconciled(rows: seq<Row>)
    ensures Reconciled(rows) == [] <==> forall i :: 0 <= i < |rows| ==> Get(rows[i], ReconciliationId) == Null
  {
    if rows != [] {
      NoneReconciled(rows[1..]);
      assert forall i :: 0 < i < |rows| ==> rows[i] == rows[1..][i - 1];
    }
  }

  /** Position `i` has a reconciliation id, and no other. */
  predicate OnlyMarked(rows: seq<Row>, i: nat)
    requires i < |rows|
  {
    && Get(rows[i], ReconciliationId) != Null
    && forall j :: 0 <= j < |rows| && j != i ==> Get(rows[j], ReconciliationId) == Null
  }

  lemma OnlyFirstMarked(rows: seq<Row>)
    requires rows != [] && Get(rows[0], ReconciliationId) != Null
    ensures OnlyMarked(rows, 0) <==> forall i :: 0 <= i < |rows[1..]| ==> Get(rows[1..][i], ReconciliationId) == Null
  {
    assert forall i :: 0 < i < |rows| ==> rows[i] == rows[1..][i - 1];
  }

  lemma OnlyMarkedMoves(rows: seq<Row>, i: nat)
    requires rows != [] && i < |rows[1..]| && Get(rows[0], ReconciliationId) == Null
    ensures OnlyMarked(rows[1..], i) <==> OnlyMarked(rows, i + 1)
  {
    assert forall j :: 0 < j < |rows| ==> rows[j] == rows[1..][j - 1];
    assert forall j :: 0 <= j < |rows[1..]| ==> rows[1..][j] == rows[j + 1];
  }

  /** The quarantined row: the one position with a reconciliation id, its outcome unknown and its lease gone. */
  lemma QuarantinedRowMeans(db: Db, row: Row)
    ensures QuarantinedRow(db) == Some(row) <==>
              && MessageOutbox in db.tables
              && (exists i :: 0 <= i < |db.tables[MessageOutbox]| && db.tables[MessageOutbox][i] == row
                    && OnlyMarked(db.tables[MessageOutbox], i))
              && Get(row, ReconciliationState) == PublishOutcomeUnknown
              && Get(row, LeaseOwner) == Null && Get(row, LeaseUntil) == Null
  {
    if MessageOutbox in db.tables {
      OneReconciled(db.tables[MessageOutbox], row);
    }
  }

  /** The columns a quarantine writes. */
  predicate Rewritten(name: Column) {
    name in {LeaseOwner, LeaseUntil, LastError, ReconciliationState, ReconciliationId, ReconciliationStartedAt,
             ReconciliationOutcomeAt}
  }

  /**
   What became of the announced row: it keeps every column but seven, its lease is gone, the note tells the old
   owner and the old end of the lease with the reason of the plan, and the two timestamps are one moment.
   */
  lemma AnnouncedIsQuarantined(before: Db, after: Db, plan: Plan, intent: Intent, past: Json -> bool)
    requires Announces(intent, before, plan, past) && Describes(intent, after, plan)
    ensures var q := QuarantinedRow(after).value;
            && q in after.tables[MessageOutbox]
            && (forall name :: name in intent.original && !Rewritten(name) ==> Get(q, name) == intent.original[name])
            && Get(q, LeaseOwner) == Null && Get(q, LeaseUntil) == Null
            && Get(q, ReconciliationState) == PublishOutcomeUnknown
            && Get(q, ReconciliationId) == Text(plan.quarantine.reconciliationId)
            && Get(q, LastError) == QuarantineNote(intent.original[LeaseOwner], intent.original[LeaseUntil],
                                                   plan.quarantine.reason)
            && Get(q, ReconciliationStartedAt) == Get(q, ReconciliationOutcomeAt)
  {
    var q := QuarantinedRow(after).value;
    QuarantinedRowMeans(after, q);
    AnnouncesExactly(intent, before, plan, past);
    forall name | name in intent.original && !Rewritten(name) ensures Get(q, name) == intent.original[name] {
      assert name !in RECONCILIATION + RESTORED;
    }
  }

  /** The new tables of a described state: one row in the identity table, none in the twelve others. */
  lemma NewTablesAreNew(db: Db, plan: Plan, intent: Intent)
    requires Describes(intent, db, plan)
    ensures CanaryDatabaseIdentity in db.tables && |db.tables[CanaryDatabaseIdentity]| == 1
    ensures forall k :: 0 <= k < 12 ==> NewTable(k) in db.tables && db.tables[NewTable(k)] == []
    ensures db.tables.Keys == plan.tables + {CanaryDatabaseIdentity} + set k | 0 <= k < 12 :: NewTable(k)
  {
    var h := intent.runtimeHistory;
    assert h.tables == Contents(db) && CanaryDatabaseIdentity in NEW_TABLES;
    assert |multiset(db.tables[CanaryDatabaseIdentity])| == |db.tables[CanaryDatabaseIdentity]|;
    forall k | 0 <= k < 12 ensures NewTable(k) in db.tables && db.tables[NewTable(k)] == [] {
      assert NewTable(k) in NEW_TABLES;
      assert |multiset(db.tables[NewTable(k)])| == |db.tables[NewTable(k)]|;
    }
  }

  /**
   The classifier answers `COMMITTED_EXACT` for no other state: with an intent that records a possible change, it
   gives that answer exactly when the intent describes the database.
   */
  lemma CommittedIsDescribed(db: Db, plan: Plan, intent: Intent)
    requires NewRelationsEmpty(intent.runtimeHistory) && CompareAccepted(intent.legacyHistory, plan)
    requires QuarantinedRow(db).Some? ==> ExactQuarantine(intent.original, QuarantinedRow(db).value, plan.quarantine)
    requires intent.legacyHistory.maxEvent == intent.runtimeHistory.maxEvent
    ensures Classify(db, plan, intent) == CommittedExact <==> Describes(intent, db, plan)
  {
    if Describes(intent, db, plan) {
      DescribedIsCommitted(db, plan, intent);
    }
  }

  // ---- Which row is taken.

  /** Each position whose lease is past adds its row, in order. */
  lemma {:induction false} NoneExpired(rows: seq<Row>, past: Json -> bool)
    ensures Expired(rows, past) == []
        <==> forall i :: 0 <= i < |rows| ==> Get(rows[i], LeaseUntil) == Null || !past(Get(rows[i], LeaseUntil))
  {
    if rows != [] {
      NoneExpired(rows[1..], past);
      assert forall i :: 0 < i < |rows| ==> rows[i] == rows[1..][i - 1];
    }
  }

  lemma {:induction false} OneExpired(rows: seq<Row>, past: Json -> bool, row: Row)
    ensures Expired(rows, past) == [row]
        <==> exists i :: 0 <= i < |rows| && rows[i] == row && OnlyPast(rows, i, past)
  {
    if rows != [] {
      var rest := rows[1..];
      if Get(rows[0], LeaseUntil) != Null && past(Get(rows[0], LeaseUntil)) {
        NoneExpired(rest, past);
        OnlyFirst(rows, past);
        OneBefore(rows[0], Expired(rest, past), row);
        assert Expired(rows, past) == [rows[0]] + Expired(rest, past);
        assert (forall i :: 0 <= i < |rows| && OnlyPast(rows, i, past) ==> i == 0);
      } else {
        OneExpired(rest, past, row);
        forall i | 0 <= i < |rest| ensures OnlyPast(rest, i, past) <==> OnlyPast(rows, i + 1, past) {
          OnlyPastMoves(rows, i, past);
        }
        if i :| 0 <= i < |rows| && rows[i] == row && OnlyPast(rows, i, past) {
          assert i > 0 && rest[i - 1] == row && OnlyPast(rest, i - 1, past);
        }
        if i :| 0 <= i < |rest| && rest[i] == row && OnlyPast(rest, i, past) {
          assert rows[i + 1] == row && OnlyPast(rows, i + 1, past);
        }
      }
    }
  }

  /** The lease of position `i` is past, and that of no other position. */
  predicate OnlyPast(rows: seq<Row>, i: nat, past: Json -> bool)
    requires i < |rows|
  {
    && Get(rows[i], LeaseUntil) != Null && past(Get(rows[i], LeaseUntil))
    && forall j :: 0 <= j < |rows| && j != i ==> Get(rows[j], LeaseUntil) == Null || !past(Get(rows[j], LeaseUntil))
  }

  lemma OnlyFirst(rows: seq<Row>, past: Json -> bool)
    requires rows != [] && Get(rows[0], LeaseUntil) != Null && past(Get(rows[0], LeaseUntil))
    ensures OnlyPast(rows, 0, past)
        <==> forall i :: 0 <= i < |rows[1..]| ==> Get(rows[1..][i], LeaseUntil) == Null || !past(Get(rows[1..][i], LeaseUntil))
  {
    assert forall i :: 0 < i < |rows| ==> rows[i] == rows[1..][i - 1];
  }

  lemma OnlyPastMoves(rows: seq<Row>, i: nat, past: Json -> bool)
    requires rows != [] && i < |rows[1..]|
    requires Get(rows[0], LeaseUntil) == Null || !past(Get(rows[0], LeaseUntil))
    ensures OnlyPast(rows[1..], i, past) <==> OnlyPast(rows, i + 1, past)
  {
    assert forall j :: 0 < j < |rows| ==> rows[j] == rows[1..][j - 1];
    assert forall j :: 0 <= j < |rows[1..]| ==> rows[1..][j] == rows[j + 1];
  }

  /**
   The announced row: the worker announces an intent exactly from an accepted baseline whose history the intent
   records, for the row at the one outbox position with a past lease, and only if that row is complete, neither
   published nor dead-lettered, and has an owner.
   */
  lemma AnnouncesExactly(intent: Intent, before: Db, plan: Plan, past: Json -> bool)
    ensures Announces(intent, before, plan, past) <==>
              && Baseline(before, plan) && ReadHistory(before, plan, false) == Some(intent.legacyHistory)
              && MessageOutbox in before.tables
              && exists i :: 0 <= i < |before.tables[MessageOutbox]| && before.tables[MessageOutbox][i] == intent.original
                   && Get(intent.original, LeaseUntil) != Null && past(Get(intent.original, LeaseUntil))
                   && {RowId, Named("producer"), Named("message_id"), Named("topic"), Named("payload"),
                       Named("payload_sha256"), Named("publish_attempts"), PublishedAt, DeadLetteredAt, LeaseOwner,
                       LeaseUntil, LastError} <= intent.original.Keys
                   && intent.original[PublishedAt] == Null && intent.original[DeadLetteredAt] == Null
                   && intent.original[LeaseOwner] !in {Null, Text(""), Num(0)}
                   && forall j :: 0 <= j < |before.tables[MessageOutbox]| && j != i ==>
                        var until := Get(before.tables[MessageOutbox][j], LeaseUntil); until == Null || !past(until)
  {
    if MessageOutbox in before.tables {
      OneExpired(before.tables[MessageOutbox], past, intent.original);
    }
  }

  /** No position with a past lease, or two of them, and nothing is announced. */
  lemma TwoLeasesAreRefused(before: Db, past: Json -> bool, i: nat, j: nat)
    requires MessageOutbox in before.tables && i < j < |before.tables[MessageOutbox]|
    requires forall k :: k == i || k == j ==>
               var until := Get(before.tables[MessageOutbox][k], LeaseUntil); until != Null && past(until)
    ensures ExpiredRow(before, past).None?
  {
    var rows := before.tables[MessageOutbox];
    forall k | 0 <= k < |rows| ensures !OnlyPast(rows, k, past) {
      var other := if k == i then j else i;
      assert other != k && Get(rows[other], LeaseUntil) != Null && past(Get(rows[other], LeaseUntil));
    }
    if Expired(rows, past) != [] {
      OneExpired(rows, past, Expired(rows, past)[0]);
    }
  }

  // ---- What a committed transition may leave in the other outbox rows.

  lemma {:induction false} ReconciledIgnores(rows: seq<Row>, k: nat, row: Row)
    requires k < |rows| && Get(rows[k], ReconciliationId) == Null == Get(row, ReconciliationId)
    ensures Reconciled(rows[k := row]) == Reconciled(rows)
  {
    if k > 0 {
      ReconciledIgnores(rows[1..], k - 1, row);
      assert rows[k := row][1..] == rows[1..][k - 1 := row];
    } else {
      assert rows[k := row][1..] == rows[1..];
    }
  }

  function WithOutbox(db: Db, rows: seq<Row>): Db {
    db.(tables := db.tables[MessageOutbox := rows])
  }

  lemma OutboxIsNotNew()
    ensures MessageOutbox !in NEW_TABLES && SchemaMigrations !in NEW_TABLES
  {
  }

  lemma RunsWithoutOutbox(db: Db, rows: seq<Row>, profile: seq<nat>)
    ensures Runs(WithOutbox(db, rows), profile) <==> Runs(db, profile)
  {
  }

  lemma ProjectedWithOutbox(db: Db, plan: Plan, original: Row, rows: seq<Row>)
    requires MessageOutbox in db.tables && ProjectAll(original, rows) == ProjectAll(original, db.tables[MessageOutbox])
    ensures Projected(WithOutbox(db, rows), plan, original) == Projected(db, plan, original)
  {
    assert WithOutbox(db, rows).tables.Keys == db.tables.Keys;
    if plan.tables <= db.tables.Keys {
      TablesWithOutbox(db, plan.tables, original, rows);
    }
  }

  lemma TablesWithOutbox(db: Db, tables: set<Table>, original: Row, rows: seq<Row>)
    requires tables <= db.tables.Keys && MessageOutbox in db.tables
    requires ProjectAll(original, rows) == ProjectAll(original, db.tables[MessageOutbox])
    ensures tables <= WithOutbox(db, rows).tables.Keys
    ensures ProjectedTables(WithOutbox(db, rows), tables, original) == ProjectedTables(db, tables, original)
  {
    forall t | t in tables
      ensures ProjectedTable(WithOutbox(db, rows), t, original) == ProjectedTable(db, t, original)
    {
      TableWithOutbox(db, t, original, rows);
    }
  }

  lemma TableWithOutbox(db: Db, t: Table, original: Row, rows: seq<Row>)
    requires t in db.tables && MessageOutbox in db.tables
    requires ProjectAll(original, rows) == ProjectAll(original, db.tables[MessageOutbox])
    ensures ProjectedTable(WithOutbox(db, rows), t, original) == ProjectedTable(db, t, original)
  {
  }

  lemma HistoryWithOutbox(db: Db, plan: Plan, rows: seq<Row>)
    requires MessageOutbox in db.tables && ReadHistory(db, plan, true).Some?
    ensures var h := ReadHistory(WithOutbox(db, rows), plan, true);
            h.Some? && (NewRelationsEmpty(ReadHistory(db, plan, true).value) ==> NewRelationsEmpty(h.value))
  {
    var v := WithOutbox(db, rows);
    assert v.tables.Keys == db.tables.Keys;
    RunsWithoutOutbox(db, rows, RUNTIME_PROFILE);
    OutboxIsNotNew();
  }

  /** An accepted state stays accepted when any other outbox row is given any state and any timestamps. */
  lemma AnyOtherStateIsDescribed(db: Db, plan: Plan, intent: Intent, k: nat, state: Json, started: Json, outcome: Json)
    requires Describes(intent, db, plan) && k < |db.tables[MessageOutbox]|
    requires Get(db.tables[MessageOutbox][k], ReconciliationId) == Null
    ensures var rows := db.tables[MessageOutbox];
            var altered := WithOutbox(db, rows[k := Marked(rows[k], state, started, outcome)]);
            ReadHistory(altered, plan, true).Some?
            && Describes(intent.(runtimeHistory := ReadHistory(altered, plan, true).value), altered, plan)
  {
    var rows := db.tables[MessageOutbox];
    var altered := rows[k := Marked(rows[k], state, started, outcome)];
    assert ProjectAll(intent.original, altered) == ProjectAll(intent.original, rows) by {
      QuarantinedIsOnly(db);
      OtherRowsKeepAnyState(rows, intent.original, QuarantinedRow(db).value, k, state, started, outcome);
    }
    assert Reconciled(altered) == Reconciled(rows) by {
      MarkedKeeps(intent.original, rows[k], state, started, outcome);
      ReconciledIgnores(rows, k, Marked(rows[k], state, started, outcome));
    }
    OutboxIsExchangeable(db, plan, intent, altered);
  }

  /** An outbox with the same projection and the same marked rows is as good. */
  lemma OutboxIsExchangeable(db: Db, plan: Plan, intent: Intent, rows: seq<Row>)
    requires Describes(intent, db, plan)
    requires ProjectAll(intent.original, rows) == ProjectAll(intent.original, db.tables[MessageOutbox])
    requires Reconciled(rows) == Reconciled(db.tables[MessageOutbox])
    ensures ReadHistory(WithOutbox(db, rows), plan, true).Some?
    ensures Describes(intent.(runtimeHistory := ReadHistory(WithOutbox(db, rows), plan, true).value),
                      WithOutbox(db, rows), plan)
  {
    ProjectedWithOutbox(db, plan, intent.original, rows);
    HistoryWithOutbox(db, plan, rows);
  }

  /**
   The outbox of a described state is the intended change of the announced one if and only if no row but the
   target shows a reconciliation value.
   */
  lemma OutboxIsIntended(before: Db, after: Db, plan: Plan, intent: Intent, past: Json -> bool)
    requires Announces(intent, before, plan, past) && Describes(intent, after, plan) && MessageOutbox in plan.tables
    requires UniqueIds(after.tables[MessageOutbox]) && forall row :: row in after.tables[MessageOutbox] ==> Complete(row)
    requires forall row :: row in before.tables[MessageOutbox] ==> LegacyRow(row)
    ensures var q := QuarantinedRow(after).value;
            multiset(after.tables[MessageOutbox])
            == multiset(QuarantineRow(before.tables[MessageOutbox], intent.original, plan.quarantine,
                                      Get(q, ReconciliationStartedAt)))
            <==> OthersUntouched(after.tables[MessageOutbox], q)
  {
    OutboxIsProjected(before, after, plan, intent, past);
    AcceptedIsIntended(before.tables[MessageOutbox], after.tables[MessageOutbox], intent.original,
                       QuarantinedRow(after).value, plan.quarantine);
  }

  // ---- The server, the evidence directory, and the protocol.

  class Server {
    var committed: Db
    var working: Option<Db>
    const past: Json -> bool
    /** How often a transition was started, and how often a commit took effect. */
    ghost var starts: nat
    ghost var commits: nat

    method Begin()
      requires working.None?
      modifies this`working, this`starts
      ensures working == Some(committed) && starts == old(starts) + 1
    {
      working := Some(committed);
      starts := starts + 1;
    }

    /** A statement of the library: it may change the open transaction in any way, or fail. */
    method Run() returns (ok: bool)
      requires working.Some?
      modifies this`working
      ensures working.Some?
    {
      var db: Db, done: bool := *, *;
      working := Some(db);
      return done;
    }

    /** Role statements touch roles only. */
    method Grant() returns (ok: bool)
      requires working.Some?
      modifies this`working
      ensures working.Some? && working.value == old(working).value.(roles := working.value.roles)
    {
      var roles: set<string>, done: bool := *, *;
      working := Some(working.value.(roles := roles));
      return done;
    }

    /** A commit takes effect as a whole or not at all, and either outcome may go unacknowledged. */
    method Commit() returns (acknowledged: bool)
      requires working.Some?
      modifies this`committed, this`working, this`commits
      ensures working.None?
      ensures || (committed == old(working).value && commits == old(commits) + 1)
              || (committed == old(committed) && commits == old(commits) && !acknowledged)
    {
      var effective: bool, heard: bool := *, *;
      if effective {
        committed, commits := working.value, commits + 1;
      }
      working := None;
      return effective && heard;
    }

    method Rollback() returns (acknowledged: bool)
      requires working.Some?
      modifies this`working
      ensures working.None?
    {
      working := None;
      acknowledged := *;
    }
  }

  /** Create-only evidence: writing an intent may fail before or after it became durable. */
  class Evidence {
    var intents: set<Intent>

    method Write(intent: Intent) returns (ok: bool)
      modifies this
      ensures intents == old(intents) || intents == old(intents) + {intent}
      ensures ok ==> intent in intents
      ensures intent in old(intents) ==> !ok && intents == old(intents)
    {
      if intent in intents {
        return false;
      }
      var written: bool, heard: bool := *, *;
      if written {
        intents := intents + {intent};
      }
      return written && heard;
    }
  }

  datatype Outcome =
    | Committed(intent: Intent)
    | OutcomeUnknown(announced: Option<Intent>, hit: Option<Stage>)
    | FaultInjected(stage: Stage)
    | Failed

  /** What happens before the commit: ready, or raised with the intent written so far. */
  datatype Attempt = Ready(intent: Intent) | Raised(fault: Option<Stage>, announced: Option<Intent>)

  /** `migrate()` with the checkpoint after each recorded migration. */
  method Migrate(server: Server, faultAt: Option<Stage>) returns (ok: bool, hit: bool)
    requires server.working.Some?
    modifies server`working
    ensures server.working.Some? && !(ok && hit)
    ensures hit ==> exists k :: 0 <= k < |NEW_MIGRATIONS| && faultAt == Some(AfterMigration(NEW_MIGRATIONS[k]))
    ensures ok ==> forall k :: 0 <= k < |NEW_MIGRATIONS| ==> faultAt != Some(AfterMigration(NEW_MIGRATIONS[k]))
  {
    for i := 0 to |NEW_MIGRATIONS|
      invariant server.working.Some?
      invariant forall k :: 0 <= k < i ==> faultAt != Some(AfterMigration(NEW_MIGRATIONS[k]))
    {
      var applied := server.Run();
      if !applied {
        return false, false;
      }
      if faultAt == Some(AfterMigration(NEW_MIGRATIONS[i])) {
        return false, true;
      }
    }
    return true, false;
  }

  /** The checks on the open transaction after the quarantine; none when one of them raises. */
  method CheckQuarantined(db: Db, plan: Plan, baseline: History, original: Row, expectedSchema: Option<string>)
    returns (history: Option<History>)
    requires CompareAccepted(baseline, plan)
    ensures history.Some? ==>
              forall at: int :: Describes(Intent(Binding(plan), baseline, history.value, original, at), db, plan)
    ensures history.Some? && expectedSchema.Some? ==> db.schema == expectedSchema.value
  {
    history := ReadHistory(db, plan, true);
    if history.None? || (expectedSchema.Some? && history.value.schema != expectedSchema.value) {
      return None;
    }
    var row := QuarantinedRow(db);
    if row.None? || !ExactQuarantine(original, row.value, plan.quarantine)
       || Projected(db, plan, original) != Some(baseline) || !NewRelationsEmpty(history.value) {
      return None;
    }
  }

  /** The migrations and the quarantine: statements of the library, with their checkpoints. */
  method Change(server: Server, faultAt: Option<Stage>) returns (ok: bool, hit: bool)
    requires server.working.Some?
    modifies server`working
    ensures server.working.Some? && !(ok && hit)
    ensures hit ==> faultAt.Some? && faultAt != Some(BeforeCommit) && faultAt != Some(AfterRoles)
    ensures ok ==> faultAt != Some(AfterMigrations) && faultAt != Some(AfterQuarantine)
    ensures ok ==> forall k :: 0 <= k < |NEW_MIGRATIONS| ==> faultAt != Some(AfterMigration(NEW_MIGRATIONS[k]))
  {
    ok, hit := Migrate(server, faultAt);
    if hit || !ok {
      return false, hit;
    }
    if faultAt == Some(AfterMigrations) {
      return false, true;
    }
    ok := server.Run();
    if ok && faultAt == Some(AfterQuarantine) {
      return false, true;
    }
  }

  /** The checks of the changed state, the roles and the durable intent. */
  method Record(server: Server, evidence: Evidence, plan: Plan, faultAt: Option<Stage>, expectedSchema: Option<string>,
                baseline: History, original: Row)
    returns (r: Attempt)
    requires server.working.Some? && CompareAccepted(baseline, plan)
    modifies server`working, evidence
    ensures server.working.Some? && evidence.intents >= old(evidence.intents)
    ensures r.Ready? ==> r.intent in evidence.intents && Describes(r.intent, server.working.value, plan)
    ensures r.Ready? ==> r.intent.legacyHistory == baseline && r.intent.original == original
    ensures r.Ready? ==> faultAt != Some(BeforeCommit) && faultAt != Some(AfterRoles)
    ensures r.Raised? && r.announced.Some? ==>
              r.announced.value.legacyHistory == baseline && r.announced.value.original == original
    ensures r.Raised? && r.fault.Some? ==> r.fault == faultAt
  {
    var history := CheckQuarantined(server.working.value, plan, baseline, original, expectedSchema);
    if history.None? {
      return Raised(None, None);
    }
    ghost var checked := server.working.value;
    var granted := server.Grant();
    var preparedAt: int := *;
    var intent := Intent(Binding(plan), baseline, history.value, original, preparedAt);
    RolesDoNotMatter(checked, plan, intent, server.working.value.roles);
    if !granted {
      return Raised(None, None);
    }
    if faultAt == Some(AfterRoles) {
      return Raised(faultAt, None);
    }
    var written := evidence.Write(intent);
    if !written {
      return Raised(None, Some(intent));
    }
    if faultAt == Some(BeforeCommit) {
      return Raised(faultAt, Some(intent));
    }
    return Ready(intent);
  }

  /** Everything up to the commit, inside one transaction. */
  method Prepare(server: Server, evidence: Evidence, plan: Plan, faultAt: Option<Stage>, expectedSchema: Option<string>)
    returns (r: Attempt)
    requires server.working == Some(server.committed)
    modifies server`working, evidence
    ensures server.working.Some?
    ensures evidence.intents >= old(evidence.intents)
    ensures r.Ready? ==>
              && r.intent in evidence.intents
              && Describes(r.intent, server.working.value, plan)
              && Announces(r.intent, server.committed, plan, server.past)
    ensures r.Raised? && r.fault.Some? ==> r.fault == faultAt
    ensures r.Raised? && r.announced.Some? ==> Announces(r.announced.value, server.committed, plan, server.past)
    ensures r.Ready? ==> faultAt != Some(BeforeCommit)
  {
    var reachable: bool := *;
    if !reachable {
      return Raised(None, None);
    }
    var baseline, original := ReadHistory(server.committed, plan, false), ExpiredRow(server.committed, server.past);
    if baseline.None? || original.None? || !CompareAccepted(baseline.value, plan) {
      return Raised(None, None);
    }
    var changed, hit := Change(server, faultAt);
    if !changed {
      return Raised(if hit then faultAt else None, None);
    }
    r := Record(server, evidence, plan, faultAt, expectedSchema, baseline.value, original.value);
  }

  /**
   Atomicity, whatever the library does, whichever step fails and whatever happens to the commit: the
   database ends either exactly as it was or exactly in a state a durable intent describes.
   */
  method AtomicTransition(
    server: Server, evidence: Evidence, plan: Plan, faultAt: Option<Stage>, expectedSchema: Option<string>)
    returns (out: Outcome)
    requires server.working.None?
    modifies server, evidence
    ensures server.working.None? && server.starts == old(server.starts) + 1
    ensures evidence.intents >= old(evidence.intents)
    ensures || (server.committed == old(server.committed) && server.commits == old(server.commits))
            || (&& server.commits == old(server.commits) + 1
                && Baseline(old(server.committed), plan)
                && exists intent :: intent in evidence.intents && Describes(intent, server.committed, plan))
    ensures out.Committed? ==>
              out.intent in evidence.intents && Describes(out.intent, server.committed, plan)
              && server.commits == old(server.commits) + 1
    ensures out.FaultInjected? ==> faultAt == Some(out.stage)
    ensures out.FaultInjected? || out.Failed? ==> server.commits == old(server.commits)
    ensures out.OutcomeUnknown? && out.announced.None? ==> server.commits == old(server.commits)
    ensures out.OutcomeUnknown? && out.announced.Some? ==>
              && Announces(out.announced.value, old(server.committed), plan, server.past)
              && (server.commits > old(server.commits) ==>
                    out.announced.value in evidence.intents && Describes(out.announced.value, server.committed, plan))
    ensures server.commits == old(server.commits) ==> server.committed == old(server.committed)
    ensures out.OutcomeUnknown? && out.hit.Some? ==> faultAt == out.hit
    ensures faultAt == Some(AfterCommitResponseLoss) ==> !out.Committed?
  {
    server.Begin();
    var r := Prepare(server, evidence, plan, faultAt, expectedSchema);
    match r
    case Raised(fault, announced) =>
      var acknowledged := server.Rollback();
      if !acknowledged {
        return OutcomeUnknown(announced, fault);
      }
      return if fault.Some? then FaultInjected(fault.value) else Failed;
    case Ready(intent) =>
      var acknowledged := server.Commit();
      if !acknowledged {
        return OutcomeUnknown(Some(intent), None);
      }
      if faultAt == Some(AfterCommitResponseLoss) {
        return OutcomeUnknown(Some(intent), faultAt);
      }
      return Committed(intent);
  }

  /**
   `_apply`: one transition is started, nothing is retried, and it returns an intent only when the database
   is in the state that durable intent describes. When it fails, the database is as it was or in a state some
   durable intent describes.
   */
  method Apply(server: Server, evidence: Evidence, plan: Plan, expectedSchema: Option<string>)
    returns (r: Option<Intent>)
    requires server.working.None?
    modifies server, evidence
    ensures server.working.None? && server.starts == old(server.starts) + 1
    ensures r.Some? ==>
              && r.value in evidence.intents && Describes(r.value, server.committed, plan)
              && server.commits == old(server.commits) + 1
    ensures evidence.intents >= old(evidence.intents)
    ensures || (server.committed == old(server.committed) && server.commits == old(server.commits))
            || (&& server.commits == old(server.commits) + 1
                && Baseline(old(server.committed), plan)
                && exists intent :: intent in evidence.intents && Describes(intent, server.committed, plan))
  {
    var out := AtomicTransition(server, evidence, plan, None, expectedSchema);
    match out
    case Committed(intent) => return Some(intent);
    case FaultInjected(_) => return None;
    case Failed => return None;
    case OutcomeUnknown(announced, _) =>
      if announced.None? {
        return None;
      }
      var readable: bool := *;
      if !readable || Classify(server.committed, plan, announced.value) != CommittedExact {
        return None;
      }
      CommittedMeansHistory(server.committed, plan, announced.value);
      return announced;
  }

  const CHECKPOINTS: seq<Stage> := [
    AfterMigration(13), AfterMigration(14), AfterMigration(15), AfterMigration(16),
    AfterMigration(18), AfterMigration(26), AfterQuarantine, AfterRoles, BeforeCommit]
  const FAULTS := 9

  /**
   `_idempotence_probe`: migrate and quarantine once more, in a transaction of their own. The library must
   find the row already quarantined; what else it did, the caller compares.
   */
  method IdempotenceProbe(server: Server)
    returns (ok: bool, ghost migrated: Option<Db>, ghost answered: bool)
    requires server.working.None?
    modifies server
    ensures ok ==> migrated.Some? && QuarantinedRow(migrated.value).Some? && answered
    ensures !ok && server.commits == old(server.commits) && answered ==>
              migrated.Some? && QuarantinedRow(migrated.value).Some?
    ensures server.working.None? && server.starts == old(server.starts) + 1
    ensures old(server.commits) <= server.commits <= old(server.commits) + 1
    ensures server.commits == old(server.commits) ==> server.committed == old(server.committed)
    ensures ok ==> server.commits == old(server.commits) + 1
  {
    migrated, answered := None, false;
    server.Begin();
    ok := server.Run();
    if ok {
      migrated := server.working;
      if QuarantinedRow(server.working.value).Some? {
        ok := server.Run();
        var alreadyQuarantined: bool := *;
        answered := ok && alreadyQuarantined;
        if ok && alreadyQuarantined {
          ok := server.Commit();
          return;
        }
      }
    }
    var acknowledged := server.Rollback();
    ok := false;
  }

  /** The nine faults: each leaves the database and the number of commits as they were. */
  method InjectFaults(server: Server, evidence: Evidence, plan: Plan)
    returns (ok: bool, ghost states: seq<Db>, ghost commits: seq<nat>)
    requires server.working.None? && Baseline(server.committed, plan)
    modifies server, evidence
    ensures server.working.None? && |states| <= FAULTS && (ok ==> |states| == FAULTS)
    ensures evidence.intents >= old(evidence.intents)
    ensures LeftAlone(states, commits, FAULTS, old(server.committed), old(server.commits))
    ensures ok ==> server.committed == old(server.committed) && server.commits == old(server.commits)
    ensures server.commits <= old(server.commits) + 1
    ensures server.commits == old(server.commits) ==> server.committed == old(server.committed)
  {
    states, commits := [], [];
    for i := 0 to FAULTS
      invariant server.working.None? && |states| == |commits| == i && evidence.intents >= old(evidence.intents)
      invariant server.committed == old(server.committed) && server.commits == old(server.commits)
      invariant forall k :: 0 <= k < i ==> states[k] == old(server.committed) && commits[k] == old(server.commits)
    {
      var out := AtomicTransition(server, evidence, plan, Some(CHECKPOINTS[i]), None);
      if !out.FaultInjected? || out.stage != CHECKPOINTS[i] {
        return false, states, commits;
      }
      LeftAloneAppends(states, commits, i, old(server.committed), old(server.commits), server.committed, server.commits);
      states, commits := states + [server.committed], commits + [server.commits];
      if !Baseline(server.committed, plan) || ExpiredRow(server.committed, server.past).None? {
        return false, states, commits;
      }
    }
    return true, states, commits;
  }

  /** The transition whose acknowledgement is lost: classified afterwards, never repeated. */
  method LoseAcknowledgement(server: Server, evidence: Evidence, plan: Plan) returns (r: Option<Intent>)
    requires server.working.None?
    modifies server, evidence
    ensures server.working.None? && evidence.intents >= old(evidence.intents)
    ensures server.commits <= old(server.commits) + 1
    ensures server.commits == old(server.commits) ==> server.committed == old(server.committed)
    ensures r.Some? ==>
              && server.commits == old(server.commits) + 1 && r.value in evidence.intents
              && Describes(r.value, server.committed, plan)
  {
    var out := AtomicTransition(server, evidence, plan, Some(AfterCommitResponseLoss), None);
    if !out.OutcomeUnknown? || out.announced.None? || out.hit != Some(AfterCommitResponseLoss)
       || Classify(server.committed, plan, out.announced.value) != CommittedExact {
      return None;
    }
    CommittedMeansHistory(server.committed, plan, out.announced.value);
    return out.announced;
  }

  /** The probe between two readings of the whole history. */
  method ProbeIdempotence(server: Server, plan: Plan) returns (ok: bool)
    requires server.working.None?
    modifies server
    ensures server.working.None? && old(server.commits) <= server.commits <= old(server.commits) + 1
    ensures server.commits == old(server.commits) ==> server.committed == old(server.committed)
    ensures ok ==> server.commits == old(server.commits) + 1
                   && ReadHistory(server.committed, plan, true) == old(ReadHistory(server.committed, plan, true))
  {
    var before := ReadHistory(server.committed, plan, true);
    ghost var migrated: Option<Db>, answered: bool;
    ok, migrated, answered := IdempotenceProbe(server);
    if ReadHistory(server.committed, plan, true) != before {
      return false;
    }
  }

  /** The transition and the probe; `middle` is the database between the two. */
  method CommitAndProbe(server: Server, evidence: Evidence, plan: Plan)
    returns (r: Option<Intent>, ghost middle: Db, ghost total: nat)
    requires server.working.None?
    modifies server, evidence
    ensures server.working.None? && server.commits <= old(server.commits) + 2
    ensures server.commits == old(server.commits) ==> server.committed == old(server.committed)
    ensures r.Some? ==>
              && r.value in evidence.intents && Describes(r.value, middle, plan)
              && total == old(server.commits) + 1 && server.commits == old(server.commits) + 2
              && ReadHistory(server.committed, plan, true) == Some(r.value.runtimeHistory)
  {
    r := LoseAcknowledgement(server, evidence, plan);
    middle, total := server.committed, server.commits;
    if r.None? {
      return;
    }
    var probed := ProbeIdempotence(server, plan);
    if !probed {
      r := None;
    }
  }

  /** The first `k` recorded states are this database, with this many commits. */
  predicate LeftAlone(states: seq<Db>, commits: seq<nat>, k: nat, db: Db, count: nat) {
    |states| == |commits| && forall i :: 0 <= i < |states| && i < k ==> states[i] == db && commits[i] == count
  }

  lemma LeftAloneAppends(states: seq<Db>, commits: seq<nat>, k: nat, db: Db, count: nat, last: Db, total: nat)
    requires LeftAlone(states, commits, k, db, count) && |states| == k
    ensures LeftAlone(states + [last], commits + [total], k, db, count)
    ensures (states + [last])[k] == last && (commits + [total])[k] == total
  {
  }

  /**
   `_rehearse`: a passing rehearsal injected all nine faults, each of which left the baseline untouched;
   the one transition that took effect lost its acknowledgement and was classified as committed exactly;
   and the second migration, the only other commit, left the whole history as it was. No rehearsal commits
   more than that, and one that commits nothing leaves the database alone.
   */
  method Rehearse(server: Server, evidence: Evidence, plan: Plan)
    returns (r: Option<Intent>, ghost states: seq<Db>, ghost commits: seq<nat>)
    requires server.working.None?
    modifies server, evidence
    ensures server.working.None? && |states| <= FAULTS + 1
    ensures |states| == |commits|
    ensures forall i :: 0 <= i < |states| && i < 9 ==> states[i] == old(server.committed) && commits[i] == old(server.commits)
    ensures server.commits <= old(server.commits) + 2
    ensures server.commits == old(server.commits) ==> server.committed == old(server.committed)
    ensures r.Some? ==>
              && |states| == FAULTS + 1
              && Baseline(old(server.committed), plan)
              && commits[FAULTS] == old(server.commits) + 1 && server.commits == old(server.commits) + 2
              && r.value in evidence.intents && Describes(r.value, states[FAULTS], plan)
              && ReadHistory(server.committed, plan, true) == Some(r.value.runtimeHistory)
  {
    states, commits := [], [];
    if !Baseline(server.committed, plan) || ExpiredRow(server.committed, server.past).None? {
      return None, states, commits;
    }
    var injected: bool;
    injected, states, commits := InjectFaults(server, evidence, plan);
    if !injected {
      return None, states, commits;
    }
    ghost var middle: Db, total: nat;
    r, middle, total := CommitAndProbe(server, evidence, plan);
    LeftAloneAppends(states, commits, FAULTS, old(server.committed), old(server.commits), middle, total);
    states, commits := states + [middle], commits + [total];
  }
}
