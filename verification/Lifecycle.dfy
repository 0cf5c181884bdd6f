/**
  The lifecycle invariant of validation batches: it holds of the empty database
  and every command of every process keeps it, in any order.
*/
module Lifecycle {
  import opened Text
  import opened ValidationRows
  import opened SqlSteps

  /** What one row says about itself, beyond the constraints of the schema. */
  predicate BatchOk(b: Batch) {
    && BatchRowOk(b)
    && b.attempt <= U32_MAX
    && (!Open(b.status) <==> b.settledAt.Some?)
    && (b.status == BatchSucceeded ==> IsObject(b.aggregate))
    && (b.settlementClaim.Some? ==> Open(b.status) && !Blank(b.settlementClaim.value))
    && (b.effectsClaim.Some? ==> !Open(b.status) && b.appliedAt.None? && !Blank(b.effectsClaim.value))
    && (b.requestedAt.Some? ==> b.status == BatchSucceeded && RejectedInSql(b.aggregate))
    && (b.boundAt.Some? ==> b.requestedAt.Some? && b.appliedAt == b.boundAt)
  }

  /** `s`, `d` and `v` are the structural, DFM and VLM check of the batch, and it has no others. */
  ghost predicate Trio(checks: map<Id, Check>, batch: Id, s: Id, d: Id, v: Id) {
    && s in checks && d in checks && v in checks
    && checks[s].kind == Structural && checks[d].kind == Dfm && checks[v].kind == Vlm
    && ChecksOf(checks, batch) == {s, d, v}
  }

  ghost predicate OwnsTrio(checks: map<Id, Check>, batch: Id) {
    exists s, d, v :: Trio(checks, batch, s, d, v)
  }

  ghost predicate CheckOk(db: Db, c: Check) {
    && CheckRowOk(c)
    && c.batch in db.batches
    && c.session == db.batches[c.batch].session
    && HasIdentity(c.contract, c.batch, c.id, db.batches[c.batch].attempt)
    && (c.evaluator.Some? ==> Evaluator(c.evaluator.value, c.session, c.id) in db.evaluators)
  }

  ghost predicate BatchesOk(db: Db) {
    && (forall id :: id in db.batches ==> db.batches[id].id == id && BatchOk(db.batches[id]))
    && (forall id :: id in db.batches && db.batches[id].settlementClaim.Some? ==> AllTerminal(db.checks, id))
    && (forall id {:trigger OwnsTrio(db.checks, id)} :: id in db.batches ==> OwnsTrio(db.checks, id))
  }

  /** The owner of a validation thread is a VLM check or an evaluation. */
  predicate OwnerOk(db: Db, e: Evaluator) {
    (e.owner in db.checks && db.checks[e.owner].kind == Vlm) || Evaluation(e.owner, e.session) in db.evaluations
  }

  ghost predicate ChecksOk(db: Db) {
    && (forall c :: c in db.checks ==> db.checks[c].id == c && CheckOk(db, db.checks[c]))
    && (forall e :: e in db.evaluators ==> OwnerOk(db, e))
  }

  ghost predicate SamePair(a: Batch, b: Batch) { a.run == b.run && a.revision == b.revision }

  /** Within one (run, revision), attempts start at 1, have no gap and no repeat. */
  ghost predicate AttemptsOk(batches: map<Id, Batch>) {
    && UniqueAttempts(batches)
    && (forall a {:trigger HasPredecessor(batches, batches[a])} :: a in batches ==> HasPredecessor(batches, batches[a]))
  }

  ghost predicate UniqueAttempts(batches: map<Id, Batch>) {
    forall a, b | a in batches && b in batches && SamePair(batches[a], batches[b]) ::
      batches[a].attempt == batches[b].attempt ==> a == b
  }

  ghost predicate HasPredecessor(batches: map<Id, Batch>, b: Batch) {
    b.attempt > 1 ==> b.attempt - 1 in Attempts(batches, b.run, b.revision)
  }

  /** The run of a batch exists and belongs to the session of the batch. */
  ghost predicate RunsOk(db: Db) {
    && (forall id :: id in db.batches ==>
          db.batches[id].run in db.runs && db.runs[db.batches[id].run].session == db.batches[id].session)
    && (forall r :: r in db.runs ==> db.runs[r].id == r)
  }

  ghost predicate Inv(db: Db) {
    BatchesOk(db) && ChecksOk(db) && AttemptsOk(db.batches) && RunsOk(db)
  }

  // ----- changing one batch row -----------------------------------------------

  /** The columns that the schema keeps immutable. */
  ghost predicate SameIdentity(a: Batch, b: Batch) {
    && a.id == b.id && a.session == b.session && a.run == b.run && a.revision == b.revision
    && a.artifact == b.artifact && a.attempt == b.attempt && a.createdAt == b.createdAt
  }

  lemma AttemptsSurviveUpdate(batches: map<Id, Batch>, now: Batch, run: Id, revision: Id)
    requires now.id in batches && SameIdentity(batches[now.id], now)
    ensures Attempts(batches[now.id := now], run, revision) == Attempts(batches, run, revision)
  {
    var after := batches[now.id := now];
    forall n | n in Attempts(batches, run, revision) ensures n in Attempts(after, run, revision) {
      var id :| id in batches && batches[id].run == run && batches[id].revision == revision && batches[id].attempt == n;
      assert id in after && after[id].attempt == n;
    }
  }

  lemma RowUpdateKeepsAttempts(batches: map<Id, Batch>, now: Batch)
    requires AttemptsOk(batches) && now.id in batches && SameIdentity(batches[now.id], now)
    ensures AttemptsOk(batches[now.id := now])
  {
    var after := batches[now.id := now];
    forall a | a in after ensures HasPredecessor(after, after[a]) {
      assert HasPredecessor(batches, batches[a]);
      AttemptsSurviveUpdate(batches, now, after[a].run, after[a].revision);
    }
  }

  lemma RowUpdateKeepsChecks(db: Db, now: Batch)
    requires ChecksOk(db) && now.id in db.batches && SameIdentity(db.batches[now.id], now)
    ensures ChecksOk(db.(batches := db.batches[now.id := now]))
  {
    var after := db.(batches := db.batches[now.id := now]);
    forall c | c in after.checks ensures CheckOk(after, after.checks[c]) {
      assert CheckOk(db, db.checks[c]);
    }
  }

  lemma RowUpdateKeepsBatches(db: Db, now: Batch)
    requires BatchesOk(db) && now.id in db.batches && BatchOk(now)
    requires now.settlementClaim.Some? ==> AllTerminal(db.checks, now.id)
    ensures BatchesOk(db.(batches := db.batches[now.id := now]))
  {
  }

  lemma RowUpdateKeepsRuns(db: Db, now: Batch)
    requires RunsOk(db) && now.id in db.batches && SameIdentity(db.batches[now.id], now)
    ensures RunsOk(db.(batches := db.batches[now.id := now]))
  {
  }

  lemma RowUpdateKeepsInv(db: Db, now: Batch)
    requires Inv(db) && now.id in db.batches && SameIdentity(db.batches[now.id], now)
    requires BatchOk(now)
    requires now.settlementClaim.Some? ==> AllTerminal(db.checks, now.id)
    ensures Inv(db.(batches := db.batches[now.id := now]))
  {
    hide AttemptsOk, ChecksOk, BatchesOk, RunsOk, BatchOk, AllTerminal, SameIdentity;
    RowUpdateKeepsAttempts(db.batches, now);
    RowUpdateKeepsChecks(db, now);
    RowUpdateKeepsBatches(db, now);
    RowUpdateKeepsRuns(db, now);
  }

  // ----- changing one check row -----------------------------------------------

  lemma CheckUpdateKeepsOwners(checks: map<Id, Check>, now: Check, batch: Id)
    requires now.id in checks && checks[now.id].batch == now.batch && checks[now.id].kind == now.kind
    ensures ChecksOf(checks[now.id := now], batch) == ChecksOf(checks, batch)
    ensures OwnsTrio(checks, batch) ==> OwnsTrio(checks[now.id := now], batch)
  {
    var after := checks[now.id := now];
    if OwnsTrio(checks, batch) {
      var s, d, v :| Trio(checks, batch, s, d, v);
      assert Trio(after, batch, s, d, v);
    }
  }

  ghost predicate SameCheckIdentity(a: Check, b: Check) {
    && a.id == b.id && a.batch == b.batch && a.session == b.session && a.kind == b.kind && a.contract == b.contract
  }

  lemma CheckRowUpdateKeepsChecks(db: Db, check: Check)
    requires ChecksOk(db) && check.id in db.checks && SameCheckIdentity(db.checks[check.id], check)
    requires CheckRowOk(check) && CheckTriggersPass(db, db.checks[check.id], check)
    ensures ChecksOk(db.(checks := db.checks[check.id := check]))
  {
    hide CheckRowOk, HasIdentity, CheckMayMove;
    var after := db.(checks := db.checks[check.id := check]);
    forall c | c in after.checks ensures CheckOk(after, after.checks[c]) {
      assert CheckOk(db, db.checks[c]);
    }
  }

  lemma CheckRowUpdateKeepsBatches(db: Db, check: Check)
    requires BatchesOk(db) && check.id in db.checks && SameCheckIdentity(db.checks[check.id], check)
    requires !Terminal(db.checks[check.id].status)
    ensures BatchesOk(db.(checks := db.checks[check.id := check]))
  {
    var after := db.checks[check.id := check];
    forall id | id in db.batches
      ensures OwnsTrio(after, id)
      ensures db.batches[id].settlementClaim.Some? ==> AllTerminal(after, id)
    {
      CheckUpdateKeepsOwners(db.checks, check, id);
      if db.batches[id].settlementClaim.Some? {
        assert check.id !in ChecksOf(db.checks, id);
      }
    }
  }

  /** A running check keeps its batch from being claimed for settlement. */
  lemma NonTerminalMeansUnclaimed(db: Db, c: Id)
    requires BatchesOk(db) && c in db.checks && !Terminal(db.checks[c].status) && db.checks[c].batch in db.batches
    ensures db.batches[db.checks[c].batch].settlementClaim.None?
  {
    assert c in ChecksOf(db.checks, db.checks[c].batch);
  }

  lemma StartedRowOk(db: Db, check: Check)
    requires check.batch in db.batches && BatchOk(db.batches[check.batch]) && CheckRowOk(check)
    requires db.batches[check.batch].settlementClaim.None?
    ensures var reply := StartBatch(db, check).1;
            reply.Got? ==> reply.row.id == check.batch && BatchOk(reply.row) && reply.row.settlementClaim.None?
                           && SameIdentity(db.batches[check.batch], reply.row)
                           && StartBatch(db, check).0 == db.(batches := db.batches[check.batch := reply.row])
    ensures !StartBatch(db, check).1.Got? ==> StartBatch(db, check).0 == db
  {
  }

  lemma StartBatchKeepsInv(db: Db, check: Check)
    requires Inv(db) && check.id in db.checks && db.checks[check.id] == check
    ensures Inv(StartBatch(db, check).0)
  {
    hide AttemptsOk, OwnsTrio, AllTerminal;
    assert CheckOk(db, db.checks[check.id]);
    if check.status == Running {
      NonTerminalMeansUnclaimed(db, check.id);
      StartedRowOk(db, check);
      var reply := StartBatch(db, check).1;
      if reply.Got? {
        RowUpdateKeepsInv(db, reply.row);
      }
    }
  }

  lemma UpdateCheckKeepsInv(db: Db, check: Check, expected: CheckStatus)
    requires Inv(db)
    ensures Inv(SqlUpdateCheck(db, check, expected).0)
  {
    hide AttemptsOk, ChecksOk, BatchesOk, RunsOk, StartBatch, CheckRowOk, CheckTriggersPass;
    if SqlUpdateCheck(db, check, expected).1.CheckSaved? {
      TriggersMeanNotTerminal(db, db.checks[check.id], check);
      CheckRowUpdateKeepsChecks(db, check);
      CheckRowUpdateKeepsBatches(db, check);
      CheckRowUpdateKeepsRuns(db, check);
      StartBatchKeepsInv(db.(checks := db.checks[check.id := check]), check);
    }
  }

  lemma TriggersMeanNotTerminal(db: Db, was: Check, now: Check)
    requires CheckTriggersPass(db, was, now)
    ensures !Terminal(was.status)
  {
  }

  lemma CheckRowUpdateKeepsRuns(db: Db, check: Check)
    requires RunsOk(db)
    ensures RunsOk(db.(checks := db.checks[check.id := check]))
  {
  }

  // ----- creating a batch -----------------------------------------------------

  lemma AttemptsAfterInsert(batches: map<Id, Batch>, row: Batch, run: Id, revision: Id)
    requires row.id !in batches
    ensures Attempts(batches[row.id := row], run, revision) ==
            Attempts(batches, run, revision)
            + (if row.run == run && row.revision == revision then {row.attempt} else {})
  {
    var after := batches[row.id := row];
    forall n | n in Attempts(batches, run, revision) ensures n in Attempts(after, run, revision) {
      var id :| id in batches && batches[id].run == run && batches[id].revision == revision && batches[id].attempt == n;
      assert id in after && after[id].attempt == n;
    }
    if row.run == run && row.revision == revision {
      assert row.id in after && after[row.id].attempt == row.attempt;
    }
  }

  /** The allocated attempt is above every attempt of its pair and follows one of them, or is the first. */
  lemma NextAttemptFits(batches: map<Id, Batch>, run: Id, revision: Id)
    ensures var next := NextAttempt(batches, run, revision);
            && (forall n :: n in Attempts(batches, run, revision) ==> n < next)
            && (next > 1 ==> next - 1 in Attempts(batches, run, revision))
  {
  }

  lemma InsertKeepsPredecessor(batches: map<Id, Batch>, row: Batch, b: Batch)
    requires row.id !in batches && HasPredecessor(batches, b)
    ensures HasPredecessor(batches[row.id := row], b)
  {
    AttemptsAfterInsert(batches, row, b.run, b.revision);
  }

  lemma InsertKeepsUnique(batches: map<Id, Batch>, row: Batch)
    requires UniqueAttempts(batches) && row.id !in batches
    requires row.attempt == NextAttempt(batches, row.run, row.revision)
    ensures UniqueAttempts(batches[row.id := row])
  {
    NextAttemptFits(batches, row.run, row.revision);
    forall a | a in batches && SamePair(batches[a], row) ensures batches[a].attempt < row.attempt {
      assert batches[a].attempt in Attempts(batches, row.run, row.revision);
    }
  }

  lemma CreateKeepsAttempts(batches: map<Id, Batch>, row: Batch)
    requires AttemptsOk(batches) && row.id !in batches
    requires row.attempt == NextAttempt(batches, row.run, row.revision)
    ensures AttemptsOk(batches[row.id := row])
  {
    InsertKeepsUnique(batches, row);
    NextAttemptFits(batches, row.run, row.revision);
    hide UniqueAttempts, NextAttempt, Attempts;
    var after := batches[row.id := row];
    forall a | a in after ensures HasPredecessor(after, after[a]) {
      InsertKeepsPredecessor(batches, row, after[a]);
    }
  }

  function InsertChecks(checks: map<Id, Check>, rows: seq<Check>): map<Id, Check>
    requires |rows| == 3
  {
    checks[rows[0].id := rows[0]][rows[1].id := rows[1]][rows[2].id := rows[2]]
  }

  lemma InsertKeepsOtherTrios(checks: map<Id, Check>, batch: Batch, rows: seq<Check>, id: Id)
    requires |rows| == 3 && ChecksFit(checks, batch, rows) && id != batch.id
    ensures ChecksOf(InsertChecks(checks, rows), id) == ChecksOf(checks, id)
    ensures OwnsTrio(checks, id) ==> OwnsTrio(InsertChecks(checks, rows), id)
    ensures AllTerminal(checks, id) ==> AllTerminal(InsertChecks(checks, rows), id)
  {
    var after := InsertChecks(checks, rows);
    if OwnsTrio(checks, id) {
      var s, d, v :| Trio(checks, id, s, d, v);
      assert s in ChecksOf(checks, id) && d in ChecksOf(checks, id) && v in ChecksOf(checks, id);
      assert Trio(after, id, s, d, v);
    }
  }

  lemma CreateKeepsBatches(db: Db, row: Batch, rows: seq<Check>)
    requires BatchesOk(db) && |rows| == 3 && ChecksFit(db.checks, row, rows) && row.id !in db.batches
    requires BatchOk(row) && row.settlementClaim.None? && OwnsTrio(InsertChecks(db.checks, rows), row.id)
    ensures BatchesOk(db.(batches := db.batches[row.id := row], checks := InsertChecks(db.checks, rows)))
  {
    forall id | id in db.batches
      ensures OwnsTrio(InsertChecks(db.checks, rows), id)
      ensures db.batches[id].settlementClaim.Some? ==> AllTerminal(InsertChecks(db.checks, rows), id)
    {
      InsertKeepsOtherTrios(db.checks, row, rows, id);
    }
  }

  lemma CreateKeepsChecks(db: Db, row: Batch, rows: seq<Check>)
    requires ChecksOk(db) && |rows| == 3 && ChecksFit(db.checks, row, rows) && row.id !in db.batches
    requires forall i :: 0 <= i < 3 ==>
               rows[i].evaluator.None? && HasIdentity(rows[i].contract, row.id, rows[i].id, row.attempt)
    ensures ChecksOk(db.(batches := db.batches[row.id := row], checks := InsertChecks(db.checks, rows)))
  {
    hide CheckRowOk, HasIdentity;
    var after := db.(batches := db.batches[row.id := row], checks := InsertChecks(db.checks, rows));
    forall c | c in after.checks ensures after.checks[c].id == c && CheckOk(after, after.checks[c]) {
      if c in db.checks {
        assert CheckOk(db, db.checks[c]);
      } else {
        var i :| 0 <= i < 3 && rows[i].id == c && after.checks[c] == rows[i];
      }
    }
  }

  lemma CreateKeepsRuns(db: Db, row: Batch, rows: seq<Check>)
    requires RunsOk(db) && BatchGraphOk(db, row) && |rows| == 3
    ensures RunsOk(db.(batches := db.batches[row.id := row], checks := InsertChecks(db.checks, rows)))
  {
  }

  /** What a successful create did. */
  lemma CreatedFacts(db: Db, batch: Batch, checks: seq<Check>)
    requires SqlCreate(db, batch, checks).1.Created?
    ensures var (after, reply) := SqlCreate(db, batch, checks);
            var row, rows := reply.batch, reply.checks;
            && |rows| == 3 && ChecksFit(db.checks, row, rows) && ChecksOf(db.checks, row.id) == {}
            && {rows[0].kind, rows[1].kind, rows[2].kind} == {Structural, Dfm, Vlm}
            && row.id !in db.batches && BatchOk(row) && row.settlementClaim.None? && BatchGraphOk(db, row)
            && row.attempt == NextAttempt(db.batches, row.run, row.revision)
            && (forall i :: 0 <= i < 3 ==>
                  rows[i].evaluator.None? && HasIdentity(rows[i].contract, row.id, rows[i].id, row.attempt))
            && after == db.(batches := db.batches[row.id := row], checks := InsertChecks(db.checks, rows))
    ensures SqlCreate(db, batch, checks).1.batch.id == batch.id
  {
  }

  lemma CreateKeepsInv(db: Db, batch: Batch, checks: seq<Check>)
    requires Inv(db)
    ensures Inv(SqlCreate(db, batch, checks).0)
  {
    if SqlCreate(db, batch, checks).1.Created? {
      CreatedFacts(db, batch, checks);
      hide SqlCreate, ChecksOk, BatchesOk, AttemptsOk, RunsOk, BatchOk, BatchGraphOk, NextAttempt, HasIdentity, ChecksFit;
      var row, rows := SqlCreate(db, batch, checks).1.batch, SqlCreate(db, batch, checks).1.checks;
      CreateOwnsTrio(db, row, rows);
      CreateKeepsAttempts(db.batches, row);
      CreateKeepsBatches(db, row, rows);
      CreateKeepsChecks(db, row, rows);
      CreateKeepsRuns(db, row, rows);
    }
  }

  lemma CreateOwnsTrio(db: Db, row: Batch, rows: seq<Check>)
    requires |rows| == 3 && ChecksFit(db.checks, row, rows) && ChecksOf(db.checks, row.id) == {}
    requires {rows[0].kind, rows[1].kind, rows[2].kind} == {Structural, Dfm, Vlm}
    ensures OwnsTrio(InsertChecks(db.checks, rows), row.id)
  {
    var after := InsertChecks(db.checks, rows);
    assert ChecksOf(after, row.id) == {rows[0].id, rows[1].id, rows[2].id};
    var kinds := {rows[0].kind, rows[1].kind, rows[2].kind};
    assert Structural in kinds && Dfm in kinds && Vlm in kinds;
    var s := if rows[0].kind == Structural then rows[0].id else if rows[1].kind == Structural then rows[1].id else rows[2].id;
    var d := if rows[0].kind == Dfm then rows[0].id else if rows[1].kind == Dfm then rows[1].id else rows[2].id;
    var v := if rows[0].kind == Vlm then rows[0].id else if rows[1].kind == Vlm then rows[1].id else rows[2].id;
    assert Trio(after, row.id, s, d, v);
  }

  // ----- every command --------------------------------------------------------

  /** The commands that update one batch row. */
  predicate RowCommand(cmd: Command) {
    || cmd.ClaimSettlement? || cmd.Settle? || cmd.ReleaseSettlement? || cmd.ClaimEffects? || cmd.ReleaseEffects?
    || cmd.MarkApplied? || cmd.RequestRefinement? || cmd.BindRefinement?
  }

  /** The new row of a successful row command, seen from the old row alone. */
  ghost predicate GoodRowUpdate(db: Db, after: Db, now: Batch) {
    && now.id in db.batches && SameIdentity(db.batches[now.id], now)
    && BatchOk(now)
    && (now.settlementClaim.Some? ==> AllTerminal(db.checks, now.id))
    && after == db.(batches := db.batches[now.id := now])
  }

  lemma SettlementRowOk(db: Db, cmd: Command)
    requires cmd.ClaimSettlement? || cmd.Settle? || cmd.ReleaseSettlement?
    requires cmd.id in db.batches ==> BatchOk(db.batches[cmd.id])
    ensures Step(db, cmd).1.Got? ==> GoodRowUpdate(db, Step(db, cmd).0, Step(db, cmd).1.row)
    ensures !Step(db, cmd).1.Got? ==> Step(db, cmd).0 == db
  {
  }

  lemma EffectsRowOk(db: Db, cmd: Command)
    requires RowCommand(cmd) && !cmd.ClaimSettlement? && !cmd.Settle? && !cmd.ReleaseSettlement?
    requires cmd.id in db.batches ==> BatchOk(db.batches[cmd.id])
    ensures Step(db, cmd).1.Got? ==> GoodRowUpdate(db, Step(db, cmd).0, Step(db, cmd).1.row)
    ensures !Step(db, cmd).1.Got? ==> Step(db, cmd).0 == db
  {
  }

  lemma RowCommandKeepsInv(db: Db, cmd: Command)
    requires Inv(db) && RowCommand(cmd)
    ensures Inv(Step(db, cmd).0)
  {
    if cmd.ClaimSettlement? || cmd.Settle? || cmd.ReleaseSettlement? {
      SettlementRowOk(db, cmd);
    } else {
      EffectsRowOk(db, cmd);
    }
    var (after, reply) := Step(db, cmd);
    if reply.Got? {
      RowUpdateKeepsInv(db, reply.row);
    }
  }

  predicate OtherTable(cmd: Command) {
    cmd.SaveRun? || cmd.LinkOutputRevision? || cmd.CreateEvaluation? || cmd.SaveEvaluator? || cmd.SetArtifacts?
  }

  /** Runs, threads and artifacts are written without touching batches or checks. */
  lemma OtherTablesKeepInv(db: Db, cmd: Command)
    requires Inv(db)
    requires OtherTable(cmd)
    ensures Inv(Step(db, cmd).0)
  {
    hide SqlSteps.Step, ChecksOk, RunsOk, BatchesOk, AttemptsOk;
    OtherTablesKeepRuns(db, cmd);
    OtherTablesKeepChecks(db, cmd);
    SameTablesSameBatchesOk(db, Step(db, cmd).0);
  }

  lemma SameTablesSameBatchesOk(db: Db, after: Db)
    requires BatchesOk(db) && after.batches == db.batches && after.checks == db.checks
    ensures BatchesOk(after)
  {
  }

  lemma OtherTablesKeepRuns(db: Db, cmd: Command)
    requires RunsOk(db)
    requires OtherTable(cmd)
    ensures RunsOk(Step(db, cmd).0)
  {
    hide RevisionLocked;
  }

  lemma OtherTablesKeepChecks(db: Db, cmd: Command)
    requires ChecksOk(db)
    requires OtherTable(cmd)
    ensures ChecksOk(Step(db, cmd).0)
    ensures Step(db, cmd).0.batches == db.batches && Step(db, cmd).0.checks == db.checks
  {
    hide CheckOk, RevisionLocked;
    var after := Step(db, cmd).0;
    forall c | c in after.checks ensures CheckOk(after, after.checks[c]) {
      SameTablesSameCheckOk(db, after, after.checks[c]);
    }
  }

  lemma SameTablesSameCheckOk(db: Db, after: Db, c: Check)
    requires CheckOk(db, c) && after.batches == db.batches && db.evaluators <= after.evaluators
    ensures CheckOk(after, c)
  {
  }

  /** Every command of every caller, successful or not, keeps the invariant. */
  lemma StepKeepsInv(db: Db, cmd: Command)
    requires Inv(db)
    ensures Inv(Step(db, cmd).0)
  {
    if RowCommand(cmd) {
      RowCommandKeepsInv(db, cmd);
    } else if cmd.CreateBatch? {
      CreateKeepsInv(db, cmd.batch, cmd.checks);
    } else if cmd.UpdateCheck? {
      UpdateCheckKeepsInv(db, cmd.check, cmd.expected);
    } else {
      OtherTablesKeepInv(db, cmd);
    }
  }

  lemma {:induction false} ExecKeepsInv(db: Db, cmds: seq<Command>)
    requires Inv(db)
    ensures Inv(Exec(db, cmds))
    decreases cmds
  {
    if cmds != [] {
      StepKeepsInv(db, cmds[0]);
      ExecKeepsInv(Step(db, cmds[0]).0, cmds[1..]);
    }
  }

  /** Any interleaving of commands from the empty database satisfies the invariant. */
  lemma ReachableInv(cmds: seq<Command>)
    ensures Inv(Exec(EMPTY, cmds))
  {
    ExecKeepsInv(EMPTY, cmds);
  }

  // ----- what the invariant says to a reader ----------------------------------

  /** In every reachable state, each batch obeys the lifecycle. */
  lemma ReachableLifecycle(cmds: seq<Command>, id: Id)
    requires id in Exec(EMPTY, cmds).batches
    ensures var db := Exec(EMPTY, cmds); var b := db.batches[id];
            && (!Open(b.status) <==> b.settledAt.Some?)
            && (b.settlementClaim.Some? ==> b.settledAt.None? && AllTerminal(db.checks, id))
            && (b.effectsClaim.Some? ==> b.settledAt.Some? && b.appliedAt.None?)
            && (b.requestedAt.Some? ==> b.status == BatchSucceeded && RejectedInSql(b.aggregate))
            && (b.boundAt.Some? ==> b.requestedAt.Some? && b.appliedAt == b.boundAt)
            && (b.appliedAt.Some? ==> b.settledAt.Some? && b.effectsClaim.None?)
  {
    ReachableInv(cmds);
  }

  /** In every reachable state, each batch owns exactly one check of each kind. */
  lemma ReachableTrio(cmds: seq<Command>, id: Id, kind: CheckKind)
    requires id in Exec(EMPTY, cmds).batches
    ensures var checks := Exec(EMPTY, cmds).checks;
            && |ChecksOf(checks, id)| == 3
            && (exists c :: c in ChecksOf(checks, id) && checks[c].kind == kind)
            && forall c, e | c in ChecksOf(checks, id) && e in ChecksOf(checks, id) ::
                 checks[c].kind == checks[e].kind ==> c == e
  {
    ReachableInv(cmds);
    TrioFacts(Exec(EMPTY, cmds).checks, id, kind);
  }

  lemma TrioFacts(checks: map<Id, Check>, id: Id, kind: CheckKind)
    requires OwnsTrio(checks, id)
    ensures |ChecksOf(checks, id)| == 3
    ensures exists c :: c in ChecksOf(checks, id) && checks[c].kind == kind
    ensures forall c, e | c in ChecksOf(checks, id) && e in ChecksOf(checks, id) ::
              checks[c].kind == checks[e].kind ==> c == e
  {
    var s, d, v :| Trio(checks, id, s, d, v);
    assert s in ChecksOf(checks, id) && d in ChecksOf(checks, id) && v in ChecksOf(checks, id);
  }
}
