/**
 A concrete transition whose every check passes although another outbox row ends in the state that only the
 target should have: the smallest legacy database with one expired and one other row.
 */
module StrayState {
  import opened Outbox
  import opened Transition
  import opened Wrappers

  // ---- The databases around an outbox, and the plan that accepts the first.

  function MigrationRows(numbers: seq<nat>): (rows: seq<Row>)
    ensures |rows| == |numbers| && forall i :: 0 <= i < |rows| ==> rows[i] == map[Version := Num(numbers[i])]
  {
    seq(|numbers|, i requires 0 <= i < |numbers| => map[Version := Num(numbers[i])])
  }

  function LegacyDb(outbox: seq<Row>): Db {
    Db("legacy", map[SchemaMigrations := MigrationRows(LEGACY_MIGRATIONS), MessageOutbox := outbox], map[], 0, {})
  }

  function NewTables(): (tables: map<Table, seq<Row>>)
    ensures tables.Keys == NEW_TABLES
    ensures forall t :: t in tables ==> tables[t] == if t == CanaryDatabaseIdentity then [map[]] else []
  {
    map t | t in NEW_TABLES :: if t == CanaryDatabaseIdentity then [map[]] else []
  }

  function RuntimeDb(outbox: seq<Row>): Db {
    Db("runtime", NewTables()[SchemaMigrations := MigrationRows(RUNTIME_PROFILE)][MessageOutbox := outbox], map[], 0, {})
  }

  function Accepted(outbox: seq<Row>): map<Table, multiset<Row>> {
    map[SchemaMigrations := multiset(MigrationRows(LEGACY_MIGRATIONS)), MessageOutbox := multiset(outbox)]
  }

  function LegacyHistory(outbox: seq<Row>): History {
    History(LEGACY_MIGRATIONS, "legacy", Accepted(outbox), map[], 0)
  }

  function PlanFor(outbox: seq<Row>, order: Quarantine): Plan {
    Plan({SchemaMigrations, MessageOutbox}, Accepted(outbox), map[], LEGACY_MIGRATIONS, "legacy",
         (Accepted(outbox), map[], LEGACY_MIGRATIONS, "legacy"), order, false)
  }

  lemma RecordedRuns(numbers: seq<nat>)
    ensures Versions(MigrationRows(numbers)) == Numbers(numbers)
  {
  }

  lemma BaselineIsRead(outbox: seq<Row>, order: Quarantine)
    ensures ReadHistory(LegacyDb(outbox), PlanFor(outbox, order), false) == Some(LegacyHistory(outbox))
    ensures Baseline(LegacyDb(outbox), PlanFor(outbox, order))
  {
    RecordedRuns(LEGACY_MIGRATIONS);
    assert Contents(LegacyDb(outbox)) == Accepted(outbox);
  }

  lemma RuntimeIsRead(outbox: seq<Row>, legacy: seq<Row>, order: Quarantine)
    ensures var h := ReadHistory(RuntimeDb(outbox), PlanFor(legacy, order), true); h.Some? && NewRelationsEmpty(h.value)
  {
    var db := RuntimeDb(outbox);
    RecordedRuns(RUNTIME_PROFILE);
    OutboxIsNotNew();
    assert db.tables.Keys == PlanFor(legacy, order).tables + NEW_TABLES;
  }

  lemma {:induction false} LegacyPrefix(numbers: seq<nat>, more: seq<nat>)
    requires forall i :: 0 <= i < |numbers| ==> IsLegacyVersion(Num(numbers[i]))
    requires forall i :: 0 <= i < |more| ==> !IsLegacyVersion(Num(more[i]))
    ensures OnlyLegacy(MigrationRows(numbers + more)) == MigrationRows(numbers)
    decreases |numbers| + |more|
  {
    var rows := MigrationRows(numbers + more);
    if numbers != [] {
      LegacyPrefix(numbers[1..], more);
      assert (numbers + more)[1..] == numbers[1..] + more;
      assert rows[1..] == MigrationRows(numbers[1..] + more);
      assert MigrationRows(numbers) == [rows[0]] + MigrationRows(numbers[1..]);
    } else if more != [] {
      LegacyPrefix([], more[1..]);
      assert rows[1..] == MigrationRows([] + more[1..]);
    }
  }

  lemma RuntimeMigrationsProject()
    ensures OnlyLegacy(MigrationRows(RUNTIME_PROFILE)) == MigrationRows(LEGACY_MIGRATIONS)
  {
    LegacyPrefix(LEGACY_MIGRATIONS, NEW_MIGRATIONS);
  }

  /** An outbox that projects to the legacy one makes a runtime database that does. */
  lemma RuntimeProjects(outbox: seq<Row>, legacy: seq<Row>, original: Row, order: Quarantine)
    requires ProjectAll(original, outbox) == legacy
    ensures Projected(RuntimeDb(outbox), PlanFor(legacy, order), original) == Some(LegacyHistory(legacy))
  {
    RuntimeMigrationsProject();
    TablesProject(RuntimeDb(outbox), Accepted(legacy), original);
  }

  lemma TablesProject(db: Db, accepted: map<Table, multiset<Row>>, original: Row)
    requires SchemaMigrations in db.tables && MessageOutbox in db.tables
    requires accepted.Keys == {SchemaMigrations, MessageOutbox}
    requires multiset(OnlyLegacy(db.tables[SchemaMigrations])) == accepted[SchemaMigrations]
    requires multiset(ProjectAll(original, db.tables[MessageOutbox])) == accepted[MessageOutbox]
    ensures ProjectedTables(db, accepted.Keys, original) == accepted
  {
  }

  // ---- Two rows.

  lemma PairProjects(original: Row, a: Row, b: Row)
    ensures ProjectAll(original, [a, b]) == [Project(original, a), Project(original, b)]
  {
  }

  lemma PairReconciles(a: Row, b: Row)
    requires Get(a, ReconciliationId) != Null && Get(b, ReconciliationId) == Null
    ensures Reconciled([a, b]) == [a]
  {
    assert [a, b][1..] == [b] && [b][1..] == [];
    assert Reconciled([b]) == [];
  }

  lemma PairExpires(a: Row, b: Row, past: Json -> bool)
    requires Get(a, LeaseUntil) != Null && past(Get(a, LeaseUntil)) && Get(b, LeaseUntil) == Null
    ensures Expired([a, b], past) == [a]
  {
    assert [a, b][1..] == [b] && [b][1..] == [];
    assert Expired([b], past) == [];
  }

  const ORDER := Quarantine("r", "expired")

  /** The expired row. */
  function Target(): (row: Row)
    ensures LegacyRow(row) && Id(row) == Num(1) && Get(row, LeaseUntil) == Num(0)
    ensures REQUIRED <= row.Keys
    ensures row[PublishedAt] == Null && row[DeadLetteredAt] == Null && row[LeaseOwner] == Text("worker")
  {
    map[RowId := Num(1), LeaseOwner := Text("worker"), LeaseUntil := Num(0), LastError := Null, PublishedAt := Null,
        DeadLetteredAt := Null, Named("producer") := Text("producer"), Named("message_id") := Text("message"),
        Named("topic") := Text("topic"), Named("payload") := Text("{}"), Named("payload_sha256") := Text("digest"),
        Named("publish_attempts") := Num(1)]
  }

  function Other(): (row: Row)
    ensures LegacyRow(row) && Id(row) == Num(2) && Get(row, LeaseUntil) == Null
  {
    map[RowId := Num(2), LeaseOwner := Null, LeaseUntil := Null, LastError := Null]
  }

  /** The target after its quarantine. */
  function Done(): Row {
    Quarantined(Target(), ORDER, Num(7))
  }

  /** The other row, in the state that only the target should have. */
  function Stray(): Row {
    Marked(Widened(Other()), PublishOutcomeUnknown, Null, Null)
  }

  lemma DoneIsMarked()
    ensures Project(Target(), Done()) == Target() && ExactQuarantine(Target(), Done(), ORDER)
    ensures Id(Done()) == Num(1) && Get(Done(), ReconciliationId) != Null
    ensures Get(Done(), ReconciliationState) == PublishOutcomeUnknown
    ensures Get(Done(), LeaseOwner) == Null && Get(Done(), LeaseUntil) == Null
  {
    ProjectQuarantined(Target(), ORDER, Num(7));
    QuarantinedIsExact(Target(), ORDER, Num(7));
    ProjectKeepsId(Target(), Done());
  }

  lemma StrayIsNotMarked()
    ensures Project(Target(), Stray()) == Other() && Id(Stray()) == Num(2)
    ensures Get(Stray(), ReconciliationId) == Null && Get(Stray(), ReconciliationState) == PublishOutcomeUnknown
  {
    ProjectWidened(Target(), Other());
    MarkedKeeps(Target(), Widened(Other()), PublishOutcomeUnknown, Null, Null);
    ProjectKeepsId(Target(), Stray());
  }

  // ---- The transition.

  function Legacy(): seq<Row> {
    [Target(), Other()]
  }

  function Outbox2(): seq<Row> {
    [Done(), Stray()]
  }

  function StrayIntent(): Intent
    requires ReadHistory(RuntimeDb(Outbox2()), PlanFor(Legacy(), ORDER), true).Some?
  {
    var plan := PlanFor(Legacy(), ORDER);
    Intent(Binding(plan), LegacyHistory(Legacy()), ReadHistory(RuntimeDb(Outbox2()), plan, true).value, Target(), 0)
  }

  predicate IsZero(until: Json) {
    until == Num(0)
  }

  lemma BaselineAnnounces()
    ensures var plan := PlanFor(Legacy(), ORDER);
            ReadHistory(LegacyDb(Legacy()), plan, false) == Some(LegacyHistory(Legacy())) && Baseline(LegacyDb(Legacy()), plan)
            && ExpiredRow(LegacyDb(Legacy()), IsZero) == Some(Target())
  {
    BaselineIsRead(Legacy(), ORDER);
    PairExpires(Target(), Other(), IsZero);
  }

  lemma StrayIsMarkedOnce()
    ensures QuarantinedRow(RuntimeDb(Outbox2())) == Some(Done())
  {
    DoneIsMarked();
    StrayIsNotMarked();
    PairReconciles(Done(), Stray());
  }

  lemma StrayProjects()
    ensures Projected(RuntimeDb(Outbox2()), PlanFor(Legacy(), ORDER), Target()) == Some(LegacyHistory(Legacy()))
  {
    DoneIsMarked();
    StrayIsNotMarked();
    PairProjects(Target(), Done(), Stray());
    RuntimeProjects(Outbox2(), Legacy(), Target(), ORDER);
  }

  /**
   From this baseline the worker announces this intent and accepts the final state with every one of its
   checks, although the other row shows the state of a quarantined one.
   */
  lemma StrayStateIsAccepted()
    ensures ReadHistory(RuntimeDb(Outbox2()), PlanFor(Legacy(), ORDER), true).Some?
    ensures Announces(StrayIntent(), LegacyDb(Legacy()), PlanFor(Legacy(), ORDER), IsZero)
    ensures Describes(StrayIntent(), RuntimeDb(Outbox2()), PlanFor(Legacy(), ORDER))
    ensures UniqueIds(Outbox2()) && !OthersUntouched(Outbox2(), Done())
    ensures Get(Stray(), ReconciliationState) == PublishOutcomeUnknown
  {
    RuntimeIsRead(Outbox2(), Legacy(), ORDER);
    BaselineAnnounces();
    StrayIsMarkedOnce();
    StrayProjects();
    DoneIsMarked();
    Conclude(LegacyDb(Legacy()), RuntimeDb(Outbox2()), PlanFor(Legacy(), ORDER), StrayIntent(), Done(), IsZero);
    StrayIsNotMarked();
    PairIsStray(Done(), Stray());
  }

  lemma Conclude(before: Db, after: Db, plan: Plan, intent: Intent, row: Row, past: Json -> bool)
    requires Baseline(before, plan) && ReadHistory(before, plan, false) == Some(intent.legacyHistory)
    requires ExpiredRow(before, past) == Some(intent.original) && intent.binding == Binding(plan)
    requires ReadHistory(after, plan, true) == Some(intent.runtimeHistory) && NewRelationsEmpty(intent.runtimeHistory)
    requires QuarantinedRow(after) == Some(row) && ExactQuarantine(intent.original, row, plan.quarantine)
    requires Projected(after, plan, intent.original) == Some(intent.legacyHistory)
    ensures Announces(intent, before, plan, past) && Describes(intent, after, plan)
  {
  }

  lemma PairIsStray(a: Row, b: Row)
    requires Id(a) != Id(b) && Get(b, ReconciliationState) != Null
    ensures UniqueIds([a, b]) && !OthersUntouched([a, b], a)
  {
    assert [a, b][1] == b && !Untouched(b);
  }
}
