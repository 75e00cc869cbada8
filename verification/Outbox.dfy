/**
 The outbox rows before and after the exact quarantine, and the projection that restores the one
 allowed row so that the legacy table can be hashed again.

 A table digest sorts the row hashes before hashing them, so it stands for the multiset of the rows.
 */
module Outbox {
  datatype Json =
    | Null
    | Text(text: string)
    | Num(n: int)
    | PublishOutcomeUnknown
    /** The canonical JSON text the quarantine leaves in `last_error`. */
    | QuarantineNote(owner: Json, until: Json, reason: string)

  /** The columns the worker looks at by name; the others are only carried along. */
  datatype Column =
    | RowId | LeaseOwner | LeaseUntil | LastError
    | ReconciliationState | ReconciliationId | ReconciliationStartedAt | ReconciliationOutcomeAt
    | PublishedAt | DeadLetteredAt | Version | Named(name: string)

  /** A row as `to_jsonb` shows it. */
  type Row = map<Column, Json>

  const RECONCILIATION: set<Column> :=
    {ReconciliationState, ReconciliationId, ReconciliationStartedAt, ReconciliationOutcomeAt}
  const RESTORED: set<Column> := {LeaseOwner, LeaseUntil, LastError}
  datatype Quarantine = Quarantine(reconciliationId: string, reason: string)

  /** `row.get(name)`. */
  function Get(row: Row, name: Column): Json {
    if name in row then row[name] else Null
  }

  function Id(row: Row): Json {
    Get(row, RowId)
  }

  /** The legacy view of a row: without the reconciliation columns, the target's old lease put back. */
  function Project(original: Row, row: Row): Row {
    (row - RECONCILIATION) + (if Id(row) == Id(original) then Restore(original) else map[])
  }

  function Restore(original: Row): Row {
    map name | name in RESTORED :: Get(original, name)
  }

  function ProjectAll(original: Row, rows: seq<Row>): (r: seq<Row>)
    ensures |r| == |rows|
    ensures forall i :: 0 <= i < |rows| ==> r[i] == Project(original, rows[i])
  {
    if rows == [] then [] else [Project(original, rows[0])] + ProjectAll(original, rows[1..])
  }

  predicate UniqueIds(rows: seq<Row>) {
    forall i, j :: 0 <= i < j < |rows| ==> Id(rows[i]) != Id(rows[j])
  }

  /** A legacy row has an id and the lease columns, and none of the reconciliation columns. */
  predicate LegacyRow(row: Row) {
    RowId in row && RESTORED <= row.Keys && row.Keys !! RECONCILIATION
  }

  // ---- The exact-quarantine check.

  function ExpectedNote(before: Row, plan: Quarantine): Json {
    QuarantineNote(Get(before, LeaseOwner), Get(before, LeaseUntil), plan.reason)
  }

  predicate ExactQuarantine(before: Row, after: Row, plan: Quarantine) {
    && (forall name :: name in before && name !in RECONCILIATION + RESTORED ==> Get(after, name) == before[name])
    && Get(after, LeaseOwner) == Null
    && Get(after, LeaseUntil) == Null
    && Get(after, ReconciliationState) == PublishOutcomeUnknown
    && Get(after, ReconciliationId) == Text(plan.reconciliationId)
    && Get(after, LastError) == ExpectedNote(before, plan)
    && Get(after, ReconciliationStartedAt) == Get(after, ReconciliationOutcomeAt)
  }

  /** `row` is the one row with a reconciliation id. */
  predicate OnlyQuarantined(rows: seq<Row>, row: Row) {
    && (exists i :: 0 <= i < |rows| && rows[i] == row)
    && Get(row, ReconciliationId) != Null
    && forall i :: 0 <= i < |rows| && Get(rows[i], ReconciliationId) != Null ==> rows[i] == row
  }

  // ---- The intended change, and that the projection undoes it.

  /** The schema change adds the four columns, all null. */
  function Widened(row: Row): Row {
    row + map name | name in RECONCILIATION :: Null
  }

  function Quarantined(row: Row, plan: Quarantine, at: Json): Row {
    Widened(row)
    [LeaseOwner := Null][LeaseUntil := Null][LastError := ExpectedNote(row, plan)]
    [ReconciliationState := PublishOutcomeUnknown][ReconciliationId := Text(plan.reconciliationId)]
    [ReconciliationStartedAt := at][ReconciliationOutcomeAt := at]
  }

  function QuarantineRow(rows: seq<Row>, original: Row, plan: Quarantine, at: Json): (r: seq<Row>)
    ensures |r| == |rows|
    ensures forall i :: 0 <= i < |rows| ==>
              r[i] == if Id(rows[i]) == Id(original) then Quarantined(rows[i], plan, at) else Widened(rows[i])
  {
    seq(|rows|, i requires 0 <= i < |rows| =>
      if Id(rows[i]) == Id(original) then Quarantined(rows[i], plan, at) else Widened(rows[i]))
  }

  lemma ProjectWidened(original: Row, row: Row)
    requires LegacyRow(row) && Id(row) != Id(original)
    ensures Project(original, Widened(row)) == row
  {
    assert Id(Widened(row)) == Id(row);
  }

  lemma ProjectQuarantined(row: Row, plan: Quarantine, at: Json)
    requires LegacyRow(row)
    ensures Project(row, Quarantined(row, plan, at)) == row
  {
    var q := Quarantined(row, plan, at);
    assert Id(q) == Id(row);
    assert Project(row, q).Keys == row.Keys;
    forall name | name in row.Keys
      ensures Project(row, q)[name] == row[name]
    {
      assert name in RESTORED || (name in q - RECONCILIATION && q[name] == row[name]);
    }
  }

  /** Projecting the quarantined table gives back the legacy table, row for row, and the check passes. */
  lemma ProjectionUndoesQuarantine(legacy: seq<Row>, original: Row, plan: Quarantine, at: Json)
    requires UniqueIds(legacy) && original in legacy && forall row :: row in legacy ==> LegacyRow(row)
    ensures var after := QuarantineRow(legacy, original, plan, at);
            && ProjectAll(original, after) == legacy
            && OnlyQuarantined(after, Quarantined(original, plan, at))
            && ExactQuarantine(original, Quarantined(original, plan, at), plan)
  {
    var after := QuarantineRow(legacy, original, plan, at);
    forall i | 0 <= i < |legacy|
      ensures ProjectAll(original, after)[i] == legacy[i]
    {
      assert legacy[i] in legacy;
      SameIdSameRow(legacy, original, i);
      if Id(legacy[i]) == Id(original) {
        ProjectQuarantined(original, plan, at);
      } else {
        ProjectWidened(original, legacy[i]);
      }
    }
    QuarantineMarksOne(legacy, original, plan, at);
    QuarantinedIsExact(original, plan, at);
  }

  lemma SameIdSameRow(rows: seq<Row>, row: Row, i: nat)
    requires UniqueIds(rows) && row in rows && i < |rows|
    ensures Id(rows[i]) == Id(row) ==> rows[i] == row
  {
    var t :| 0 <= t < |rows| && rows[t] == row;
    assert Id(rows[i]) == Id(row) ==> i == t;
  }

  lemma QuarantinedIsExact(row: Row, plan: Quarantine, at: Json)
    requires LegacyRow(row)
    ensures ExactQuarantine(row, Quarantined(row, plan, at), plan)
  {
  }

  lemma QuarantineMarksOne(legacy: seq<Row>, original: Row, plan: Quarantine, at: Json)
    requires UniqueIds(legacy) && original in legacy && forall row :: row in legacy ==> LegacyRow(row)
    ensures OnlyQuarantined(QuarantineRow(legacy, original, plan, at), Quarantined(original, plan, at))
  {
    var after, q := QuarantineRow(legacy, original, plan, at), Quarantined(original, plan, at);
    var t :| 0 <= t < |legacy| && legacy[t] == original;
    assert after[t] == q;
    forall i | 0 <= i < |after| && Get(after[i], ReconciliationId) != Null
      ensures after[i] == q
    {
      if Id(legacy[i]) == Id(original) {
        SameIdSameRow(legacy, original, i);
      }
    }
  }

  // ---- Conversely, the projection pins the table down.

  lemma ProjectKeepsId(original: Row, row: Row)
    ensures Id(Project(original, row)) == Id(row)
  {
  }

  /** What must be true of each row when the projected digest equals the baseline and the checks pass. */
  predicate Pinned(original: Row, quarantined: Row, before: Row, after: Row, plan: Quarantine) {
    if Id(before) == Id(original)
    then
      && before == original && after == quarantined
      && (after - RECONCILIATION) - RESTORED == before - RESTORED
      && Get(after, LeaseOwner) == Null && Get(after, LeaseUntil) == Null
      && Get(after, LastError) == ExpectedNote(before, plan)
      && Get(after, ReconciliationId) == Text(plan.reconciliationId)
    else
      && after - RECONCILIATION == before
      && Get(after, ReconciliationId) == Null
  }

  /** The two tables correspond row for row, and every row is pinned. */
  predicate TablePinned(legacy: seq<Row>, after: seq<Row>, original: Row, quarantined: Row, plan: Quarantine) {
    && |after| == |legacy|
    && forall i :: 0 <= i < |after| ==>
         exists j :: 0 <= j < |legacy| && Id(legacy[j]) == Id(after[i])
                  && Pinned(original, quarantined, legacy[j], after[i], plan)
  }

  /**
   The projection pins the quarantine down: when the projected multiset is the baseline, ids are unique,
   only one row has a reconciliation id and that row passes the exact check, then the tables correspond
   row for row, every other row keeps all its legacy columns, and the target differs in the lease and
   reconciliation columns only.
   */
  lemma ProjectionPinsQuarantine(legacy: seq<Row>, after: seq<Row>, original: Row, quarantined: Row, plan: Quarantine)
    requires UniqueIds(after) && original in legacy && forall row :: row in legacy ==> LegacyRow(row)
    requires multiset(ProjectAll(original, after)) == multiset(legacy)
    requires OnlyQuarantined(after, quarantined) && ExactQuarantine(original, quarantined, plan)
    ensures TablePinned(legacy, after, original, quarantined, plan) && UniqueIds(legacy)
    ensures forall j :: 0 <= j < |legacy| ==> exists i :: 0 <= i < |after| && Id(legacy[j]) == Id(after[i])
  {
    LegacyIdsAreUnique(legacy, after, original);
    forall j | 0 <= j < |legacy|
      ensures exists i :: 0 <= i < |after| && Id(legacy[j]) == Id(after[i])
    {
      var i := RowAfter(legacy, after, original, j);
    }
    forall i | 0 <= i < |after|
      ensures exists j :: 0 <= j < |legacy| && Id(legacy[j]) == Id(after[i])
                       && Pinned(original, quarantined, legacy[j], after[i], plan)
    {
      var j := RowBefore(legacy, after, original, i);
      RowIsPinned(legacy, after, original, quarantined, plan, i, j);
    }
  }

  lemma LegacyIdsAreUnique(legacy: seq<Row>, after: seq<Row>, original: Row)
    requires UniqueIds(after) && multiset(ProjectAll(original, after)) == multiset(legacy)
    ensures |after| == |legacy| && UniqueIds(legacy)
  {
    var projected := ProjectAll(original, after);
    SameSize(projected, legacy);
    forall i, j | 0 <= i < j < |projected|
      ensures Id(projected[i]) != Id(projected[j])
    {
      ProjectKeepsId(original, after[i]);
      ProjectKeepsId(original, after[j]);
    }
    UniqueInAnyOrder(projected, legacy);
  }

  /** The legacy row behind a row. */
  lemma RowBefore(legacy: seq<Row>, after: seq<Row>, original: Row, i: nat) returns (j: nat)
    requires i < |after| && multiset(ProjectAll(original, after)) == multiset(legacy)
    ensures j < |legacy| && legacy[j] == Project(original, after[i]) && Id(legacy[j]) == Id(after[i])
  {
    var projected := ProjectAll(original, after);
    assert projected[i] in multiset(legacy);
    j :| 0 <= j < |legacy| && legacy[j] == projected[i];
    ProjectKeepsId(original, after[i]);
  }

  /** The row a legacy row became. */
  lemma RowAfter(legacy: seq<Row>, after: seq<Row>, original: Row, j: nat) returns (i: nat)
    requires j < |legacy| && multiset(ProjectAll(original, after)) == multiset(legacy)
    ensures i < |after| && legacy[j] == Project(original, after[i]) && Id(legacy[j]) == Id(after[i])
  {
    var projected := ProjectAll(original, after);
    assert legacy[j] in multiset(projected);
    i :| 0 <= i < |projected| && projected[i] == legacy[j];
    ProjectKeepsId(original, after[i]);
  }

  lemma RowIsPinned(legacy: seq<Row>, after: seq<Row>, original: Row, quarantined: Row, plan: Quarantine, i: nat, j: nat)
    requires UniqueIds(after) && UniqueIds(legacy) && original in legacy
    requires forall row :: row in legacy ==> LegacyRow(row)
    requires OnlyQuarantined(after, quarantined) && ExactQuarantine(original, quarantined, plan)
    requires i < |after| && j < |legacy| && legacy[j] == Project(original, after[i])
    ensures Pinned(original, quarantined, legacy[j], after[i], plan)
  {
    ProjectKeepsId(original, after[i]);
    var q :| 0 <= q < |after| && after[q] == quarantined;
    assert Id(quarantined) == Id(original);
    if Id(after[i]) == Id(original) {
      assert i == q;
      var o :| 0 <= o < |legacy| && legacy[o] == original;
      assert o == j;
      assert (after[i] - RECONCILIATION) - RESTORED == legacy[j] - RESTORED;
    } else {
      assert after[i] != quarantined;
      assert after[i] - RECONCILIATION == legacy[j];
    }
  }

  lemma SameSize(a: seq<Row>, b: seq<Row>)
    requires multiset(a) == multiset(b)
    ensures |a| == |b|
  {
    assert |multiset(a)| == |a| && |multiset(b)| == |b|;
  }

  /** A row that stands at two positions counts twice. */
  lemma CountTwice(rows: seq<Row>, i: nat, j: nat)
    requires i < j < |rows| && rows[i] == rows[j]
    ensures multiset(rows)[rows[i]] >= 2
  {
    assert rows == rows[..j] + [rows[j]] + rows[j + 1..];
    assert rows[..j][i] == rows[i] && rows[i] in multiset(rows[..j]);
  }

  lemma {:induction false} CountedOnce(rows: seq<Row>, row: Row)
    requires UniqueIds(rows)
    ensures multiset(rows)[row] <= 1
  {
    if rows != [] {
      CountedOnce(rows[1..], row);
      assert rows == [rows[0]] + rows[1..];
      if row == rows[0] {
        assert row !in rows[1..];
      }
    }
  }

  lemma UniqueInAnyOrder(a: seq<Row>, b: seq<Row>)
    requires UniqueIds(a) && multiset(a) == multiset(b)
    ensures UniqueIds(b)
  {
    forall i, j | 0 <= i < j < |b|
      ensures Id(b[i]) != Id(b[j])
    {
      assert b[i] in multiset(a) && b[j] in multiset(a);
      CountedOnce(a, b[i]);
      if b[i] == b[j] {
        CountTwice(b, i, j);
      }
    }
  }

  // ---- Exactly which tables the checks accept.

  /** What the worker finds out about the outbox: the projected digest and the one marked row. */
  predicate ChecksPass(legacy: seq<Row>, after: seq<Row>, original: Row, quarantined: Row) {
    multiset(ProjectAll(original, after)) == multiset(legacy) && OnlyQuarantined(after, quarantined)
  }

  lemma PinnedProjects(original: Row, quarantined: Row, before: Row, after: Row, plan: Quarantine)
    requires LegacyRow(before) && Id(before) == Id(after) && Pinned(original, quarantined, before, after, plan)
    ensures Project(original, after) == before
  {
    if Id(before) == Id(original) {
      assert Project(original, after) == ((after - RECONCILIATION) - RESTORED) + Restore(original);
    }
  }

  /** Equally many distinct rows, each of one list in the other, are the same rows. */
  lemma SameRows(a: seq<Row>, b: seq<Row>)
    requires UniqueIds(a) && |a| == |b| && forall row :: row in a ==> row in b
    ensures multiset(a) == multiset(b)
  {
    forall row ensures multiset(a)[row] <= multiset(b)[row] {
      CountedOnce(a, row);
      assert row in multiset(a) ==> row in a && row in b;
    }
    assert multiset(a) <= multiset(b);
    assert |multiset(b) - multiset(a)| == |b| - |a|;
    assert multiset(b) == multiset(a) + (multiset(b) - multiset(a));
  }

  lemma PinnedIsProjected(legacy: seq<Row>, after: seq<Row>, original: Row, quarantined: Row, plan: Quarantine)
    requires UniqueIds(after) && TablePinned(legacy, after, original, quarantined, plan)
    requires forall row :: row in legacy ==> LegacyRow(row)
    ensures multiset(ProjectAll(original, after)) == multiset(legacy)
  {
    var projected := ProjectAll(original, after);
    forall i | 0 <= i < |after| ensures projected[i] in legacy && Id(projected[i]) == Id(after[i]) {
      var j :| 0 <= j < |legacy| && Id(legacy[j]) == Id(after[i])
            && Pinned(original, quarantined, legacy[j], after[i], plan);
      PinnedProjects(original, quarantined, legacy[j], after[i], plan);
    }
    SameRows(projected, legacy);
  }

  lemma PinnedIsOnly(legacy: seq<Row>, after: seq<Row>, original: Row, quarantined: Row, plan: Quarantine)
    requires TablePinned(legacy, after, original, quarantined, plan) && quarantined in after
    requires Get(quarantined, ReconciliationId) == Text(plan.reconciliationId)
    ensures OnlyQuarantined(after, quarantined)
  {
    forall i | 0 <= i < |after| && Get(after[i], ReconciliationId) != Null ensures after[i] == quarantined {
      var j :| 0 <= j < |legacy| && Id(legacy[j]) == Id(after[i])
            && Pinned(original, quarantined, legacy[j], after[i], plan);
    }
  }

  /**
   The worker's checks accept exactly the pinned tables: the legacy rows with any reconciliation values but
   the id in the other rows.
   */
  lemma ChecksAcceptExactly(legacy: seq<Row>, after: seq<Row>, original: Row, quarantined: Row, plan: Quarantine)
    requires UniqueIds(after) && UniqueIds(legacy) && forall row :: row in legacy ==> LegacyRow(row)
    requires original in legacy && quarantined in after && ExactQuarantine(original, quarantined, plan)
    ensures ChecksPass(legacy, after, original, quarantined) <==> TablePinned(legacy, after, original, quarantined, plan)
  {
    if ChecksPass(legacy, after, original, quarantined) {
      ProjectionPinsQuarantine(legacy, after, original, quarantined, plan);
    }
    if TablePinned(legacy, after, original, quarantined, plan) {
      PinnedIsProjected(legacy, after, original, quarantined, plan);
      PinnedIsOnly(legacy, after, original, quarantined, plan);
    }
  }

  // ---- When the accepted table is the intended one.

  /** `to_jsonb` shows every column of the schema. */
  predicate Complete(row: Row) {
    RECONCILIATION + RESTORED <= row.Keys
  }

  /** All four reconciliation columns are null. */
  predicate Untouched(row: Row) {
    forall name :: name in RECONCILIATION ==> Get(row, name) == Null
  }

  /** Another row is the widened legacy row if and only if its reconciliation columns are the four nulls. */
  lemma OtherRowIsWidened(original: Row, quarantined: Row, before: Row, after: Row, plan: Quarantine)
    requires LegacyRow(before) && Complete(after) && Id(before) != Id(original)
    requires Pinned(original, quarantined, before, after, plan)
    ensures after == Widened(before) <==> Untouched(after)
  {
    if Untouched(after) {
      forall name ensures name in after <==> name in Widened(before) {
        assert name in after && name !in RECONCILIATION <==> name in before;
      }
      forall name | name in after ensures after[name] == Widened(before)[name] {
        assert name in RECONCILIATION ==> Get(after, name) == Null;
        assert name !in RECONCILIATION ==> (after - RECONCILIATION)[name] == before[name];
      }
    }
    if after == Widened(before) {
      assert forall name :: name in RECONCILIATION ==> Widened(before)[name] == Null;
    }
  }

  /** The target row is determined, down to its one timestamp. */
  lemma TargetIsQuarantined(original: Row, quarantined: Row, plan: Quarantine)
    requires LegacyRow(original) && Complete(quarantined) && ExactQuarantine(original, quarantined, plan)
    requires Pinned(original, quarantined, original, quarantined, plan)
    ensures quarantined == Quarantined(original, plan, Get(quarantined, ReconciliationStartedAt))
  {
    var q := Quarantined(original, plan, Get(quarantined, ReconciliationStartedAt));
    forall name ensures name in quarantined <==> name in q {
      assert name in (quarantined - RECONCILIATION) - RESTORED <==> name in original - RESTORED;
    }
    forall name | name in quarantined ensures quarantined[name] == q[name] {
      assert name !in RECONCILIATION + RESTORED ==> ((quarantined - RECONCILIATION) - RESTORED)[name] == original[name];
    }
  }

  /** No other row shows any reconciliation value: one query a caller can make. */
  predicate OthersUntouched(after: seq<Row>, quarantined: Row) {
    forall row :: row in after && row != quarantined ==> Untouched(row)
  }

  lemma PinnedRowIsIntended(legacy: seq<Row>, after: Row, original: Row, quarantined: Row, plan: Quarantine, j: nat)
    requires j < |legacy| && LegacyRow(legacy[j]) && LegacyRow(original) && Complete(after)
    requires ExactQuarantine(original, quarantined, plan) && Id(legacy[j]) == Id(after)
    requires Pinned(original, quarantined, legacy[j], after, plan)
    ensures var at := Get(quarantined, ReconciliationStartedAt);
            after == QuarantineRow(legacy, original, plan, at)[j]
            <==> Id(legacy[j]) == Id(original) || Untouched(after)
  {
    if Id(legacy[j]) == Id(original) {
      TargetIsQuarantined(original, quarantined, plan);
    } else {
      OtherRowIsWidened(original, quarantined, legacy[j], after, plan);
    }
  }

  /**
   A table that passes the checks is the intended change of the legacy table, in some order, if and only if
   no row but the target shows a reconciliation value.
   */
  lemma AcceptedIsIntended(legacy: seq<Row>, after: seq<Row>, original: Row, quarantined: Row, plan: Quarantine)
    requires UniqueIds(after) && original in legacy && forall row :: row in legacy ==> LegacyRow(row)
    requires forall row :: row in after ==> Complete(row)
    requires ChecksPass(legacy, after, original, quarantined) && ExactQuarantine(original, quarantined, plan)
    ensures var at := Get(quarantined, ReconciliationStartedAt);
            multiset(after) == multiset(QuarantineRow(legacy, original, plan, at)) <==> OthersUntouched(after, quarantined)
  {
    var at := Get(quarantined, ReconciliationStartedAt);
    var intended := QuarantineRow(legacy, original, plan, at);
    ProjectionPinsQuarantine(legacy, after, original, quarantined, plan);
    if OthersUntouched(after, quarantined) {
      forall row | row in after ensures row in intended {
        UntouchedIsIntended(legacy, after, original, quarantined, plan, row);
      }
      SameRows(after, intended);
    }
    if multiset(after) == multiset(intended) {
      IntendedIsUntouched(legacy, after, original, quarantined, plan, at);
    }
  }

  lemma IntendedIsUntouched(legacy: seq<Row>, after: seq<Row>, original: Row, quarantined: Row, plan: Quarantine, at: Json)
    requires forall row :: row in legacy ==> LegacyRow(row)
    requires OnlyQuarantined(after, quarantined)
    requires multiset(after) == multiset(QuarantineRow(legacy, original, plan, at))
    ensures OthersUntouched(after, quarantined)
  {
    var intended := QuarantineRow(legacy, original, plan, at);
    forall row | row in after && row != quarantined ensures Untouched(row) {
      assert row in multiset(intended);
      var j :| 0 <= j < |intended| && intended[j] == row;
      var i :| 0 <= i < |after| && after[i] == row;
      assert Get(row, ReconciliationId) == Null;
      assert Get(Quarantined(legacy[j], plan, at), ReconciliationId) != Null;
      WidenedIsUntouched(legacy[j]);
    }
  }

  lemma WidenedIsUntouched(row: Row)
    requires LegacyRow(row)
    ensures Untouched(Widened(row))
  {
  }

  lemma UntouchedIsIntended(legacy: seq<Row>, after: seq<Row>, original: Row, quarantined: Row, plan: Quarantine, row: Row)
    requires TablePinned(legacy, after, original, quarantined, plan) && row in after && Complete(row)
    requires LegacyRow(original) && forall r :: r in legacy ==> LegacyRow(r)
    requires ExactQuarantine(original, quarantined, plan) && (row != quarantined ==> Untouched(row))
    ensures row in QuarantineRow(legacy, original, plan, Get(quarantined, ReconciliationStartedAt))
  {
    var i :| 0 <= i < |after| && after[i] == row;
    var j :| 0 <= j < |legacy| && Id(legacy[j]) == Id(after[i])
          && Pinned(original, quarantined, legacy[j], after[i], plan);
    if Id(legacy[j]) != Id(original) {
      assert Get(row, ReconciliationId) == Null;
    }
    PinnedRowIsIntended(legacy, row, original, quarantined, plan, j);
  }

  // ---- What the checks leave open.

  /** A row with any state and any two timestamps. */
  function Marked(row: Row, state: Json, started: Json, outcome: Json): Row {
    row[ReconciliationState := state][ReconciliationStartedAt := started][ReconciliationOutcomeAt := outcome]
  }

  lemma MarkedKeeps(original: Row, row: Row, state: Json, started: Json, outcome: Json)
    ensures var marked := Marked(row, state, started, outcome);
            && Project(original, marked) == Project(original, row) && Id(marked) == Id(row)
            && Get(marked, ReconciliationId) == Get(row, ReconciliationId)
  {
    var marked := Marked(row, state, started, outcome);
    assert marked - RECONCILIATION == row - RECONCILIATION;
  }

  /**
   The checks say nothing about the state and the timestamps of other rows: whenever they pass, they still
   pass after any row without a reconciliation id is given any of these.
   */
  lemma OtherRowsKeepAnyState(after: seq<Row>, original: Row, quarantined: Row, k: nat, state: Json, started: Json,
                              outcome: Json)
    requires OnlyQuarantined(after, quarantined) && k < |after| && Get(after[k], ReconciliationId) == Null
    ensures var altered := after[k := Marked(after[k], state, started, outcome)];
            && ProjectAll(original, altered) == ProjectAll(original, after)
            && OnlyQuarantined(altered, quarantined) && (UniqueIds(after) ==> UniqueIds(altered))
  {
    MarkedKeeps(original, after[k], state, started, outcome);
    var altered := after[k := Marked(after[k], state, started, outcome)];
    assert ProjectAll(original, altered) == ProjectAll(original, after);
    assert forall i :: 0 <= i < |after| ==> Id(altered[i]) == Id(after[i]);
    var t :| 0 <= t < |after| && after[t] == quarantined;
    assert t != k && altered[t] == quarantined;
  }
}
