/**
  Reachable states in which the two repositories answer a well-formed call differently, one for each extra guard
  of the simulation, and one from which a restart fails.
*/
module Divergence {
  import opened Text
  import opened ValidationRows
  import opened SqlSteps
  import opened MemorySteps
  import opened Lifecycle
  import opened Simulation
  import Recovery

  function FreshCheck(id: Id, kind: CheckKind): Check {
    Check(id, "b", "s", kind, Queued, ObjectContract(map[]), None, None, None, None, None, "t", None, None)
  }

  const FRESH_BATCH: Batch :=
    Batch("b", "s", "r", "v", "a", 1, BatchQueued, None, "t", None, None, None, None, None, None, None)

  const FRESH_CHECKS: seq<Check> := [FreshCheck("c", Structural), FreshCheck("d", Dfm), FreshCheck("e", Vlm)]

  const FRESH_RUN: Run := Run("r", "s", Some("v"), None)

  const TABLES: Db := Db(map[], map[], map["r" := FRESH_RUN], {}, {}, {ArtifactLink("s", "v", "a")})

  lemma FirstContracts()
    ensures StampAll(FRESH_CHECKS, "b", 1).Some?
  {
    StampIdentityWorksIff(FRESH_CHECKS[0].contract, "b", "c", 1);
    StampIdentityWorksIff(FRESH_CHECKS[1].contract, "b", "d", 1);
    StampIdentityWorksIff(FRESH_CHECKS[2].contract, "b", "e", 1);
    hide StampIdentity;
  }

  lemma FirstAttempt()
    ensures NextAttempt(TABLES.batches, "r", "v") == 1
  {
    assert Attempts(TABLES.batches, "r", "v") == {};
  }

  /** The check is stored as it was created. */
  predicate FirstCheck(db: Db, c: Id, kind: CheckKind) {
    c in db.checks && db.checks[c].batch == "b" && db.checks[c].kind == kind && PristineCheck(db.checks[c])
  }

  /** A batch can be created at all. */
  lemma FirstBatch()
    ensures var (db, reply) := SqlCreate(TABLES, FRESH_BATCH, FRESH_CHECKS);
            && reply.Created? && "b" in db.batches && db.batches["b"] == FRESH_BATCH
            && FirstCheck(db, "c", Structural) && FirstCheck(db, "e", Vlm)
            && db.runs == TABLES.runs && db.evaluations == {} && db.evaluators == {}
  {
    hide StampAll, NextAttempt;
    FirstContracts();
    FirstAttempt();
    var rows := StampAll(FRESH_CHECKS, "b", 1).value;
    StampedRows(FRESH_CHECKS, "b", 1);
    assert "c"[0] != "d"[0] && "c"[0] != "e"[0] && "d"[0] != "e"[0] && "t"[0] != ' ';
    assert rows[0].id == "c" && rows[1].id == "d" && rows[2].id == "e";
    assert ChecksOf(TABLES.checks, "b") == {};
    assert CreateArgumentsOk(FRESH_BATCH, FRESH_CHECKS);
    assert ChecksFit(TABLES.checks, FRESH_BATCH, rows);
  }

  const SETUP: seq<Command> :=
    [SaveRun(FRESH_RUN), SetArtifacts({ArtifactLink("s", "v", "a")}), CreateBatch(FRESH_BATCH, FRESH_CHECKS)]

  lemma SetupRuns()
    ensures Exec(EMPTY, SETUP) == SqlCreate(TABLES, FRESH_BATCH, FRESH_CHECKS).0
    ensures Inv(Exec(EMPTY, SETUP))
  {
    hide SqlCreate, Inv;
    ReachableInv(SETUP);
    var save, links, create := SETUP[0], SETUP[1], SETUP[2];
    assert SETUP == [save] + ([links] + ([create] + []));
    Recovery.RunOne(EMPTY, save, [links] + ([create] + []));
    var saved := Step(EMPTY, save).0;
    Recovery.RunOne(saved, links, [create] + []);
    assert Step(saved, links).0 == TABLES;
    Recovery.RunOne(TABLES, create, []);
  }

  lemma Extend(cmds: seq<Command>, cmd: Command)
    ensures Exec(EMPTY, cmds + [cmd]) == Step(Exec(EMPTY, cmds), cmd).0
  {
    hide Step;
    ExecAppend(EMPTY, cmds, [cmd] + []);
    Recovery.RunOne(Exec(EMPTY, cmds), cmd, []);
    assert [cmd] + [] == [cmd];
  }

  // ----- opposite replies -----------------------------------------------------

  function SameRows(db: Db): Store { Store(db.batches, db.checks) }

  /** After the run, on the same rows, a well-formed call is refused by SQL and accepted in memory. */
  ghost predicate OnlyMemoryAccepts(cmds: seq<Command>, cmd: Command) {
    var db := Exec(EMPTY, cmds);
    WellFormed(db, cmd) && Step(db, cmd).1 == Refused && Accepted(MemStep(SameRows(db), cmd).1)
  }

  ghost predicate OnlySqlAccepts(cmds: seq<Command>, cmd: Command) {
    var db := Exec(EMPTY, cmds);
    WellFormed(db, cmd) && Accepted(Step(db, cmd).1) && MemStep(SameRows(db), cmd).1 == Refused
  }

  /** A batch whose run, revision and artifact are not stored. */
  lemma UngroundedCreateDiverges()
    ensures OnlyMemoryAccepts([], CreateBatch(FRESH_BATCH, FRESH_CHECKS))
  {
    hide StampAll;
    FirstContracts();
    assert Attempts(map[], "r", "v") == {};
    StampedRows(FRESH_CHECKS, "b", 1);
    assert "c"[0] != "d"[0] && "c"[0] != "e"[0] && "d"[0] != "e"[0] && "t"[0] != ' ';
    assert CreateArgumentsOk(FRESH_BATCH, FRESH_CHECKS);
  }

  /** A check that starts on a validation thread that is not stored. */
  lemma UnknownThreadDiverges() returns (cmd: Command)
    ensures cmd.UpdateCheck? && OnlyMemoryAccepts(SETUP, cmd)
  {
    hide SqlCreate, SqlUpdateCheck, MemUpdateCheck, Inv, WellFormed;
    SetupRuns();
    FirstBatch();
    var db := Exec(EMPTY, SETUP);
    cmd := UpdateCheck(OnThread(db.checks["e"]), Queued);
    CheckFacts(db, "e");
    UnknownThreadIsRefused(db);
  }

  function OnThread(check: Check): Check {
    check.(status := Running, startedAt := Some("t"), evaluator := Some("x"), turn := Some("t"))
  }

  lemma UnknownThreadIsRefused(db: Db)
    requires "b" in db.batches && db.evaluators == {} && FirstCheck(db, "e", Vlm)
    requires db.checks["e"].id == "e" && CheckOk(db, db.checks["e"])
    ensures var cmd := UpdateCheck(OnThread(db.checks["e"]), Queued);
            && WellFormed(db, cmd) && SqlUpdateCheck(db, cmd.check, Queued).1 == Refused
            && MemUpdateCheck(SameRows(db), cmd.check, Queued).1.CheckSaved?
  {
    Recovery.TokenIsNotBlank();
    hide Blank, SqlBlank, HasIdentity;
  }

  /** All checks failed before any of them started: the row has no start time, which SQL needs for a verdict
      `succeeded`. */
  lemma UnstartedVerdictDiverges() returns (cmds: seq<Command>, cmd: Command)
    ensures cmd.Settle? && OnlyMemoryAccepts(cmds, cmd)
  {
    hide SqlCreate, Inv, Step, SqlSettle, MemSettle, WellFormed;
    SetupRuns();
    FirstBatch();
    cmds := FinishAndClaim(SETUP);
    cmd := Command.Settle("s", "b", "t", BatchSucceeded, Some(ObjectReport(Flag(true), "")), "t");
    UnstartedVerdictIsRefused(Exec(EMPTY, cmds));
  }

  lemma UnstartedVerdictIsRefused(db: Db)
    requires "b" in db.batches && db.batches["b"] == FRESH_BATCH.(settlementClaim := Some("t"))
    ensures var cmd := Command.Settle("s", "b", "t", BatchSucceeded, Some(ObjectReport(Flag(true), "")), "t");
            && WellFormed(db, cmd) && Step(db, cmd).1 == Refused && MemStep(SameRows(db), cmd).1.Got?
  {
    Recovery.TokenIsNotBlank();
    hide AllTerminal, Blank, SqlBlank;
  }

  /** A report whose `passed` is the number 0: SQL takes it for a rejection, the in-memory repository does not. */
  lemma NumericRejectionDiverges() returns (cmds: seq<Command>)
    ensures OnlySqlAccepts(cmds, Command.RequestRefinement("s", "b", "t", "t"))
  {
    hide Inv, Step, WellFormed, MemStep;
    cmds := VerdictRun(ObjectReport(Number(0.0), ""));
    RequestIsAnswered(Exec(EMPTY, cmds), ObjectReport(Number(0.0), ""));
  }

  lemma RequestIsAnswered(db: Db, report: Report)
    requires "b" in db.batches && db.batches["b"] == SettledRow(report)
    requires RejectedInSql(Some(report))
    ensures var cmd := Command.RequestRefinement("s", "b", "t", "t");
            && WellFormed(db, cmd)
            && Step(db, cmd) == (db.(batches := db.batches["b" := SettledRow(report).(requestedAt := Some("t"))]),
                                 Got(SettledRow(report).(requestedAt := Some("t"))))
            && (!RejectedInRust(Some(report)) ==> MemStep(SameRows(db), cmd).1 == Refused)
  {
    Recovery.TokenIsNotBlank();
    hide AllTerminal, Blank, SqlBlank;
  }

  /** A refinement whose run has no external turn: only the in-memory repository binds it. */
  lemma UnboundTurnDiverges() returns (cmds: seq<Command>)
    ensures OnlyMemoryAccepts(cmds, Command.BindRefinement("s", "b", "t", "t"))
  {
    hide Inv, Step, WellFormed, MemStep;
    var report := ObjectReport(Flag(false), "");
    var settled := VerdictRun(report);
    var request := Command.RequestRefinement("s", "b", "t", "t");
    RequestIsAnswered(Exec(EMPTY, settled), report);
    Extend(settled, request);
    cmds := settled + [request];
    UnboundTurnIsRefused(Exec(EMPTY, cmds));
  }

  lemma UnboundTurnIsRefused(db: Db)
    requires "b" in db.batches && db.runs == TABLES.runs
    requires db.batches["b"] == SettledRow(ObjectReport(Flag(false), "")).(requestedAt := Some("t"))
    ensures var cmd := Command.BindRefinement("s", "b", "t", "t");
            && WellFormed(db, cmd) && Step(db, cmd).1 == Refused && MemStep(SameRows(db), cmd).1.Got?
  {
    Recovery.TokenIsNotBlank();
    hide AllTerminal, Blank, SqlBlank;
  }

  /** A run that has moved to another output revision: the batch stays the latest in memory only. */
  lemma MovedRevisionDiverges() returns (cmds: seq<Command>)
    ensures var db := Exec(EMPTY, cmds);
            "b" in db.batches && !IsLatest(db, "s", "b") && MemIsLatest(SameRows(db), "s", "b")
  {
    hide SqlCreate, Inv, EffectsOwned;
    SetupRuns();
    FirstBatch();
    var db := Exec(EMPTY, SETUP);
    var move := LinkOutputRevision("s", "r", "w");
    Extend(SETUP, move);
    cmds := SETUP + [move];
    OnlyFirstBatch();
    assert "v"[0] != "w"[0];
  }

  lemma OnlyFirstBatch()
    ensures SqlCreate(TABLES, FRESH_BATCH, FRESH_CHECKS).0.batches.Keys == {"b"}
  {
    hide StampAll, NextAttempt, ChecksFit, CreateArgumentsOk;
    FirstBatch();
  }

  // ----- the runs that lead there ------------------------------------------------

  /** All checks of the batch fail or stay as they ended, and the settlement is claimed. */
  lemma FinishAndClaim(before: seq<Command>) returns (cmds: seq<Command>)
    requires Inv(Exec(EMPTY, before)) && "b" in Exec(EMPTY, before).batches
    requires var b := Exec(EMPTY, before).batches["b"];
             Open(b.status) && b.settlementClaim.None? && b.session == "s"
    ensures var db := Exec(EMPTY, cmds);
            && Inv(db) && AllTerminal(db.checks, "b") && db.runs == Exec(EMPTY, before).runs
            && db.batches == Exec(EMPTY, before).batches["b" :=
                 Exec(EMPTY, before).batches["b"].(settlementClaim := Some("t"))]
  {
    hide Inv, Step, AllTerminal, OwnsTrio;
    var db := Exec(EMPTY, before);
    var finish := Recovery.FinishChecks(db, ChecksOf(db.checks, "b"));
    ExecAppend(EMPTY, before, finish);
    ExecKeepsInv(db, finish);
    var done := Exec(db, finish);
    Recovery.RowFacts(db, "b");
    Recovery.RowFacts(done, "b");
    Recovery.AllFinished(db.checks, done.checks, "b");
    Recovery.ClaimWorks(done, "b");
    Extend(before + finish, ClaimSettlement("s", "b", "t"));
    cmds := before + finish + [ClaimSettlement("s", "b", "t")];
    ReachableInv(cmds);
  }

  /** The row of a batch that succeeded with the report and whose effects are claimed. */
  function SettledRow(report: Report): Batch {
    FRESH_BATCH.(status := BatchSucceeded, aggregate := Some(report), startedAt := Some("t"),
                 settledAt := Some("t"), effectsClaim := Some("t"))
  }

  lemma VerdictRun(report: Report) returns (cmds: seq<Command>)
    requires report.ObjectReport?
    ensures var db := Exec(EMPTY, cmds);
            && Inv(db) && "b" in db.batches && db.batches["b"] == SettledRow(report) && db.runs == TABLES.runs
  {
    hide Inv, Step, SqlCreate, AllTerminal, BatchOk;
    SetupRuns();
    FirstBatch();
    var start := StartFirst(Exec(EMPTY, SETUP));
    Extend(SETUP, start);
    ReachableInv(SETUP + [start]);
    var claimed := FinishAndClaim(SETUP + [start]);
    var settle := Command.Settle("s", "b", "t", BatchSucceeded, Some(report), "t");
    VerdictWorks(Exec(EMPTY, claimed), report);
    Extend(claimed, settle);
    ReachableInv(claimed + [settle]);
    Recovery.RowFacts(Exec(EMPTY, claimed + [settle]), "b");
    Recovery.EffectsClaimWorks(Exec(EMPTY, claimed + [settle]), "b");
    Extend(claimed + [settle], ClaimEffects("s", "b", "t"));
    cmds := claimed + [settle] + [ClaimEffects("s", "b", "t")];
    ReachableInv(cmds);
  }

  lemma VerdictWorks(db: Db, report: Report)
    requires report.ObjectReport? && "b" in db.batches && AllTerminal(db.checks, "b")
    requires db.batches["b"]
             == FRESH_BATCH.(status := BatchRunning, startedAt := Some("t"), settlementClaim := Some("t"))
    ensures Step(db, Command.Settle("s", "b", "t", BatchSucceeded, Some(report), "t")).0
            == db.(batches := db.batches["b" := SettledRow(report).(effectsClaim := None)])
  {
    Recovery.TokenIsNotBlank();
    hide AllTerminal, Blank, SqlBlank;
  }

  lemma StartFirst(db: Db) returns (start: Command)
    requires Inv(db) && "b" in db.batches && db.batches["b"] == FRESH_BATCH && FirstCheck(db, "c", Structural)
    ensures "b" in Step(db, start).0.batches && Step(db, start).0.runs == db.runs
    ensures Step(db, start).0.batches["b"] == FRESH_BATCH.(status := BatchRunning, startedAt := Some("t"))
  {
    hide Inv, SqlUpdateCheck, CheckOk;
    start := UpdateCheck(db.checks["c"].(status := Running, startedAt := Some("t")), Queued);
    CheckFacts(db, "c");
    StartWorks(db, start.check);
  }

  lemma CheckFacts(db: Db, c: Id)
    requires Inv(db) && c in db.checks
    ensures db.checks[c].id == c && CheckOk(db, db.checks[c])
  {
    hide BatchesOk, AttemptsOk, RunsOk, CheckOk;
  }

  /** The structural check starts, on a thread or without one. */
  lemma StartWorks(db: Db, check: Check)
    requires "b" in db.batches && db.batches["b"] == FRESH_BATCH && FirstCheck(db, "c", Structural)
    requires db.checks["c"].id == "c" && CheckOk(db, db.checks["c"])
    requires || check == db.checks["c"].(status := Running, startedAt := Some("t"))
             || (check == OnThread(db.checks["c"]) && Evaluator("x", "s", "c") in db.evaluators)
    ensures SqlUpdateCheck(db, check, Queued).0
            == db.(checks := db.checks["c" := check],
                   batches := db.batches["b" := FRESH_BATCH.(status := BatchRunning, startedAt := Some("t"))])
  {
    Recovery.TokenIsNotBlank();
    hide Blank, SqlBlank, HasIdentity;
  }

  // ----- a restart that fails -----------------------------------------------------

  /** The premise of a restart is needed: an evaluation with the id of a structural check owns a thread, the check
      starts on it, and the restarted process can no longer queue the check again. */
  lemma BoundCheckBlocksRestart() returns (cmds: seq<Command>)
    ensures Inv(Exec(EMPTY, cmds)) && !Recovery.RestartSafe(Exec(EMPTY, cmds))
  {
    hide Inv, SqlCreate, SqlUpdateCheck, CheckOk;
    SetupRuns();
    FirstBatch();
    var evaluation, thread := CreateEvaluation(Evaluation("c", "s")), SaveEvaluator(Evaluator("x", "s", "c"));
    Extend(SETUP, evaluation);
    Extend(SETUP + [evaluation], thread);
    var before := SETUP + [evaluation] + [thread];
    var db := Exec(EMPTY, before);
    ReachableInv(before);
    CheckFacts(db, "c");
    var start := UpdateCheck(OnThread(db.checks["c"]), Queued);
    StartWorks(db, start.check);
    Extend(before, start);
    cmds := before + [start];
    ReachableInv(cmds);
    assert Exec(EMPTY, cmds).checks["c"] == start.check;
  }
}
