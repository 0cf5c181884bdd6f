/** What can still happen: an unfinished check can succeed, also after a restart, and its batch can pass. */
module BatchOutcomes {
  import opened Text
  import opened ValidationRows
  import opened SqlSteps
  import opened Lifecycle
  import opened BatchAnswers
  import Recovery

  /** The check while it runs, started now unless it was started before. */
  function Started(c: Check): Check {
    c.(status := Running, startedAt := if c.startedAt.Some? then c.startedAt else Some("now"))
  }

  /** The check with its report. */
  function Finished(c: Check, report: string, passed: bool): Check {
    Started(c).(status := Succeeded, report := Some(report), passed := Some(passed), completedAt := Some("now"))
  }

  function SuccessCommands(c: Check, report: string, passed: bool): seq<Command> {
    [UpdateCheck(Started(c), c.status), UpdateCheck(Finished(c, report, passed), Running)]
  }

  lemma MayStartAndFinish(db: Db, c: Id, report: string, passed: bool)
    requires Inv(db) && c in db.checks && Unfinished(db.checks[c].status)
    ensures var row := db.checks[c];
            && row.id == c && MayBecome(db, row, Started(row))
            && forall later: Db :: later.evaluators == db.evaluators ==> MayBecome(later, Started(row), Finished(row, report, passed))
  {
    hide BatchesOk, AttemptsOk, RunsOk, HasIdentity;
    assert CheckOk(db, db.checks[c]);
    StoredCheck(db, c);
    ColumnsFitIff(db.checks[c]);
  }

  /** An unfinished check can succeed with any report and verdict; then its batch is started, unclaimed and unsettled, and
      no other check is touched. */
  lemma CheckCanSucceed(db: Db, c: Id, report: string, passed: bool)
    requires Inv(db) && c in db.checks && Unfinished(db.checks[c].status)
    ensures db.checks[c].batch in db.batches
    ensures var after := Exec(db, SuccessCommands(db.checks[c], report, passed));
            && after.checks == db.checks[c := Finished(db.checks[c], report, passed)]
            && after.batches.Keys == db.batches.Keys
            && var (was, now) := (db.batches[db.checks[c].batch], after.batches[db.checks[c].batch]);
               was.settledAt.None? ==>
                 && now == was.(status := BatchRunning, startedAt := now.startedAt)
                 && now.startedAt.Some? && now.settlementClaim.None?
  {
    hide Inv, SqlSteps.Step, MayBecome, CheckRowOk;
    var row := db.checks[c];
    var (running, done) := (Started(row), Finished(row, report, passed));
    MayStartAndFinish(db, c, report, passed);
    UpdateCheckAnswer(db, running, row.status);
    StepKeepsInv(db, UpdateCheck(running, row.status));
    var mid := SqlSteps.Step(db, UpdateCheck(running, row.status)).0;
    UpdateCheckAnswer(mid, done, Running);
    Recovery.RunTwo(db, UpdateCheck(running, row.status), UpdateCheck(done, Running));
    Row(db, row.batch);
    UnfinishedMeansUnclaimed(db, c);
    assert mid.checks[c := done] == db.checks[c := done];
  }

  /** An unsettled batch with an unfinished check can still pass: the check succeeds, the others are finished, and the batch
      is settled as succeeded with any report object, by any claimant. */
  lemma CanSucceed(db: Db, c: Id, report: string, passed: bool, aggregate: Report, token: string) returns (cmds: seq<Command>)
    requires Inv(db) && c in db.checks && Unfinished(db.checks[c].status)
    requires db.checks[c].batch in db.batches && db.batches[db.checks[c].batch].settledAt.None?
    requires aggregate.ObjectReport? && !Blank(token)
    ensures var (last, id) := (Exec(db, cmds), db.checks[c].batch);
            && id in last.batches && last.batches[id].status == BatchSucceeded && last.batches[id].aggregate == Some(aggregate)
            && c in last.checks && last.checks[c] == Finished(db.checks[c], report, passed)
  {
    hide Inv, SqlSteps.Step, SuccessCommands, Finished, OwnsTrio, AllTerminal, Blank, BatchOk;
    var id := db.checks[c].batch;
    var session := db.batches[id].session;
    var first := SuccessCommands(db.checks[c], report, passed);
    CheckCanSucceed(db, c, report, passed);
    ExecKeepsInv(db, first);
    var started := Exec(db, first);
    FinishedIsTerminal(db.checks[c], report, passed);
    var others := Recovery.FinishChecks(started, ChecksOf(started.checks, id));
    ExecKeepsInv(started, others);
    var done := Exec(started, others);
    AllAreDone(started, done, id);
    var last := [ClaimSettlement(session, id, token),
                 Command.Settle(session, id, token, BatchSucceeded, Some(aggregate), token)];
    SettlesAsSucceeded(done, session, id, aggregate, token);
    ExecAppend(started, others, last);
    ExecAppend(db, first, others + last);
    cmds := first + (others + last);
  }

  lemma FinishedIsTerminal(c: Check, report: string, passed: bool)
    ensures Terminal(Finished(c, report, passed).status)
  {
  }

  lemma AllAreDone(was: Db, now: Db, id: Id)
    requires now.checks.Keys == was.checks.Keys
    requires forall c :: c in was.checks ==> now.checks[c].batch == was.checks[c].batch
    requires forall c :: c in ChecksOf(was.checks, id) ==> Terminal(now.checks[c].status)
    ensures ChecksDone(now, id)
  {
  }

  lemma SettlesAsSucceeded(db: Db, session: Id, id: Id, aggregate: Report, token: string)
    requires Inv(db) && id in db.batches && db.batches[id].session == session && ChecksDone(db, id)
    requires db.batches[id].status == BatchRunning && db.batches[id].startedAt.Some?
    requires db.batches[id].settlementClaim.None? && aggregate.ObjectReport? && !Blank(token)
    ensures var claim := ClaimSettlement(session, id, token);
            var settle := Command.Settle(session, id, token, BatchSucceeded, Some(aggregate), token);
            var last := Exec(db, [claim, settle]);
            && id in last.batches && last.batches[id].status == BatchSucceeded
            && last.batches[id].aggregate == Some(aggregate) && last.checks == db.checks
  {
    hide Inv, SqlSteps.Step, Blank, ChecksDone;
    var claim := ClaimSettlement(session, id, token);
    var settle := Command.Settle(session, id, token, BatchSucceeded, Some(aggregate), token);
    ClaimSettlementAnswer(db, session, id, token);
    StepKeepsInv(db, claim);
    SettleAnswer(SqlSteps.Step(db, claim).0, session, id, token, BatchSucceeded, Some(aggregate), token);
    Recovery.RunTwo(db, claim, settle);
  }

  /** A check that a restart interrupted can still succeed. */
  lemma RestartLosesNoCheck(db: Db, c: Id, report: string, passed: bool)
    requires Inv(db) && Recovery.RestartSafe(db) && c in db.checks
    requires db.checks[c].status == Running && (db.checks[c].kind == Structural || db.checks[c].kind == Dfm)
    ensures var restarted := Recovery.Restarted(db);
            && c in restarted.checks
            && var after := Exec(restarted, SuccessCommands(restarted.checks[c], report, passed));
               && c in after.checks && after.checks[c].status == Succeeded
               && after.checks[c].report == Some(report) && after.checks[c].passed == Some(passed)
               && after.checks[c].contract == db.checks[c].contract
  {
    hide Inv, SqlSteps.Step, SuccessCommands;
    var restarted := Recovery.Restarted(db);
    Recovery.RestartFacts(db);
    Recovery.RestartedColumns(db);
    assert Recovery.CheckAfterRestart(db.checks[c], restarted.checks[c]);
    CheckCanSucceed(restarted, c, report, passed);
  }
}
