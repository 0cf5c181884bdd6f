/**
  What each repository call does to the database (session_repository/save.rs):
  one function per call, each a single transaction over the rows.
*/
module SqlSteps {
  import opened Text
  import opened ValidationRows

  /** One UPDATE of one batch row; a failed constraint or trigger aborts it. */
  function UpdateBatch(db: Db, columns: set<Column>, now: Batch): (Db, Reply)
    requires now.id in db.batches
  {
    if BatchRowOk(now) && BatchTriggersPass(db, columns, db.batches[now.id], now)
    then (db.(batches := db.batches[now.id := now]), Got(now))
    else (db, Refused)
  }

  /** The row that `WHERE id = ? AND session_id = ?` selects. */
  predicate Selects(db: Db, session: Id, id: Id) {
    id in db.batches && db.batches[id].id == id && db.batches[id].session == session
  }

  // ----- create ---------------------------------------------------------------

  predicate CreateArgumentsOk(batch: Batch, checks: seq<Check>) {
    && PristineBatch(batch)
    && |checks| == 3
    && (forall i :: 0 <= i < 3 ==> PristineCheck(checks[i]))
    && {checks[0].kind, checks[1].kind, checks[2].kind} == {Structural, Dfm, Vlm}
  }

  predicate BatchGraphOk(db: Db, b: Batch) {
    && b.run in db.runs
    && db.runs[b.run].session == b.session
    && db.runs[b.run].outputRevision == Some(b.revision)
    && ArtifactLink(b.session, b.revision, b.artifact) in db.artifacts
  }

  predicate ChecksFit(checks: map<Id, Check>, batch: Batch, rows: seq<Check>)
    requires |rows| == 3
  {
    && (forall i :: 0 <= i < 3 ==>
          && rows[i].batch == batch.id && rows[i].session == batch.session
          && rows[i].id !in checks && CheckRowOk(rows[i]))
    && rows[0].id != rows[1].id && rows[0].id != rows[2].id && rows[1].id != rows[2].id
  }

  /** The three checks with the identity that the transaction allocates. */
  function StampAll(checks: seq<Check>, batch: Id, attempt: nat): (r: Option<seq<Check>>)
    requires |checks| == 3
    ensures r.Some? ==> |r.value| == 3
  {
    var c0 := StampIdentity(checks[0].contract, batch, checks[0].id, attempt);
    var c1 := StampIdentity(checks[1].contract, batch, checks[1].id, attempt);
    var c2 := StampIdentity(checks[2].contract, batch, checks[2].id, attempt);
    if c0.Some? && c1.Some? && c2.Some?
    then Some([checks[0].(contract := c0.value), checks[1].(contract := c1.value), checks[2].(contract := c2.value)])
    else None
  }

  ghost function NextAttempt(batches: map<Id, Batch>, run: Id, revision: Id): nat {
    MaxOf(Attempts(batches, run, revision)) + 1
  }

  ghost function SqlCreate(db: Db, batch: Batch, checks: seq<Check>): (Db, Reply) {
    var attempt := NextAttempt(db.batches, batch.run, batch.revision);
    if !CreateArgumentsOk(batch, checks) || EffectsOwned(db.batches, batch.run, batch.revision)
       || attempt > U32_MAX
    then (db, Refused)
    else
      var row := batch.(attempt := attempt);
      match StampAll(checks, batch.id, attempt)
      case None => (db, Refused)
      case Some(rows) =>
        if batch.id !in db.batches && BatchRowOk(row) && BatchGraphOk(db, row) && ChecksFit(db.checks, row, rows)
           && ChecksOf(db.checks, batch.id) == {}
        then
          (db.(batches := db.batches[batch.id := row],
               checks := db.checks[rows[0].id := rows[0]][rows[1].id := rows[1]][rows[2].id := rows[2]]),
           Created(row, rows))
        else (db, Refused)
  }

  // ----- checks ---------------------------------------------------------------

  predicate CheckRowMatches(was: Check, check: Check, expected: CheckStatus) {
    && was.id == check.id && was.session == check.session && was.batch == check.batch
    && was.kind == check.kind && was.contract == check.contract && was.createdAt == check.createdAt
    && was.status == expected
  }

  /** A running check starts its batch in the same transaction. */
  function StartBatch(db: Db, check: Check): (Db, Reply) {
    if check.status == Running && Selects(db, check.session, check.batch)
       && db.batches[check.batch].status == BatchQueued
    then
      var was := db.batches[check.batch];
      var started := if was.startedAt.Some? then was.startedAt else check.startedAt;
      UpdateBatch(db, {StatusCol, StartedCol}, was.(status := BatchRunning, startedAt := started))
    else (db, Stored)
  }

  function SqlUpdateCheck(db: Db, check: Check, expected: CheckStatus): (Db, Reply) {
    if check.id in db.checks && CheckRowMatches(db.checks[check.id], check, expected)
       && CheckRowOk(check) && CheckTriggersPass(db, db.checks[check.id], check)
    then
      var (db1, reply) := StartBatch(db.(checks := db.checks[check.id := check]), check);
      if reply == Refused then (db, Refused) else (db1, CheckSaved(check))
    else (db, Refused)
  }

  // ----- settlement -----------------------------------------------------------

  function SqlClaimSettlement(db: Db, session: Id, id: Id, token: string): (Db, Reply) {
    if Blank(token) then (db, Refused)
    else if Selects(db, session, id) && Open(db.batches[id].status)
            && db.batches[id].settlementClaim.None? && db.batches[id].settledAt.None?
            && AllTerminal(db.checks, id)
    then UpdateBatch(db, {SettlementCol}, db.batches[id].(settlementClaim := Some(token)))
    else (db, NotClaimed)
  }

  predicate SettleArgumentsOk(token: string, status: BatchStatus, aggregate: Option<Report>, at: string) {
    && !Blank(token) && !Blank(at)
    && (status == BatchSucceeded || status == BatchFailed)
    && (status == BatchSucceeded ==> IsObject(aggregate))
    && (status == BatchFailed ==> aggregate.None?)
  }

  function SqlSettle(db: Db, session: Id, id: Id, token: string, status: BatchStatus,
                  aggregate: Option<Report>, at: string): (Db, Reply)
  {
    if SettleArgumentsOk(token, status, aggregate, at)
       && Selects(db, session, id) && Open(db.batches[id].status)
       && db.batches[id].settlementClaim == Some(token) && db.batches[id].settledAt.None?
       && AllTerminal(db.checks, id)
    then
      UpdateBatch(db, {StatusCol, AggregateCol, SettlementCol, SettledCol},
                  db.batches[id].(status := status, aggregate := aggregate,
                                  settlementClaim := None, settledAt := Some(at)))
    else (db, Refused)
  }

  function SqlReleaseSettlement(db: Db, session: Id, id: Id, token: string): (Db, Reply) {
    if !Blank(token) && Selects(db, session, id) && db.batches[id].settlementClaim == Some(token)
       && Open(db.batches[id].status) && db.batches[id].settledAt.None?
    then UpdateBatch(db, {SettlementCol}, db.batches[id].(settlementClaim := None))
    else (db, Refused)
  }

  // ----- effects --------------------------------------------------------------

  function SqlClaimEffects(db: Db, session: Id, id: Id, token: string): (Db, Reply) {
    if Blank(token) then (db, Refused)
    else if Selects(db, session, id) && !Open(db.batches[id].status) && db.batches[id].settledAt.Some?
            && db.batches[id].effectsClaim.None? && db.batches[id].appliedAt.None?
    then UpdateBatch(db, {EffectsCol}, db.batches[id].(effectsClaim := Some(token)))
    else (db, NotClaimed)
  }

  function SqlReleaseEffects(db: Db, session: Id, id: Id, token: string): (Db, Reply) {
    if !Blank(token) && Selects(db, session, id) && db.batches[id].effectsClaim == Some(token)
       && db.batches[id].appliedAt.None?
    then UpdateBatch(db, {EffectsCol}, db.batches[id].(effectsClaim := None))
    else (db, Refused)
  }

  function SqlMarkApplied(db: Db, session: Id, id: Id, token: string, at: string): (Db, Reply) {
    if !Blank(token) && !Blank(at) && Selects(db, session, id)
       && db.batches[id].effectsClaim == Some(token) && !Open(db.batches[id].status)
       && db.batches[id].settledAt.Some? && db.batches[id].appliedAt.None?
    then
      UpdateBatch(db, {EffectsCol, AppliedCol},
                  db.batches[id].(effectsClaim := None, appliedAt := Some(at)))
    else (db, Refused)
  }

  // ----- refinement -----------------------------------------------------------

  function SqlRequestRefinement(db: Db, session: Id, id: Id, token: string, at: string): (Db, Reply) {
    if !Blank(at) && Selects(db, session, id) && db.batches[id].status == BatchSucceeded
       && db.batches[id].settledAt.Some? && RejectedInSql(db.batches[id].aggregate)
       && db.batches[id].requestedAt.None? && db.batches[id].boundAt.None?
       && db.batches[id].effectsClaim == Some(token) && db.batches[id].appliedAt.None?
    then UpdateBatch(db, {RequestedCol}, db.batches[id].(requestedAt := Some(at)))
    else (db, Refused)
  }

  /** The run of the batch is bound to an external turn. */
  predicate TurnBound(runs: map<Id, Run>, b: Batch) {
    b.run in runs && runs[b.run].session == b.session && runs[b.run].turn.Some?
  }

  function SqlBindRefinement(db: Db, session: Id, id: Id, token: string, at: string): (Db, Reply) {
    if !Blank(at) && Selects(db, session, id) && db.batches[id].status == BatchSucceeded
       && db.batches[id].settledAt.Some? && RejectedInSql(db.batches[id].aggregate)
       && db.batches[id].requestedAt.Some? && db.batches[id].effectsClaim == Some(token)
       && db.batches[id].boundAt.None? && db.batches[id].appliedAt.None?
       && TurnBound(db.runs, db.batches[id])
    then
      UpdateBatch(db, {BoundCol, EffectsCol, AppliedCol},
                  db.batches[id].(boundAt := Some(at), effectsClaim := None, appliedAt := Some(at)))
    else (db, Refused)
  }

  // ----- the tables around the batches ----------------------------------------

  /** `save_agent_run` never changes the session or the output revision of a stored run. */
  function SqlSaveRun(db: Db, run: Run): (Db, Reply) {
    if run.id !in db.runs then (db.(runs := db.runs[run.id := run]), Stored)
    else if db.runs[run.id].session != run.session then (db, Refused)
    else (db.(runs := db.runs[run.id := db.runs[run.id].(turn := run.turn)]), Stored)
  }

  predicate RevisionLocked(batches: map<Id, Batch>, run: Id, session: Id) {
    exists id :: id in batches && batches[id].run == run && batches[id].session == session
      && batches[id].effectsClaim.Some? && batches[id].appliedAt.None?
  }

  function SqlLinkOutputRevision(db: Db, session: Id, run: Id, revision: Id): (Db, Reply) {
    if run !in db.runs || db.runs[run].session != session then (db, Refused)
    else if db.runs[run].outputRevision != Some(revision) && RevisionLocked(db.batches, run, session)
    then (db, Refused)
    else (db.(runs := db.runs[run := db.runs[run].(outputRevision := Some(revision))]), Stored)
  }

  /** A new row of `validation_evaluations`; its id is a primary key. */
  function SqlCreateEvaluation(db: Db, e: Evaluation): (Db, Reply) {
    if exists o :: o in db.evaluations && o.id == e.id then (db, Refused)
    else (db.(evaluations := db.evaluations + {e}), Stored)
  }

  /** A validation thread is owned by an evaluation or by a VLM check of its session. */
  function SqlSaveEvaluator(db: Db, e: Evaluator): (Db, Reply) {
    if Evaluation(e.owner, e.session) in db.evaluations
       || (e.owner in db.checks && db.checks[e.owner].session == e.session && db.checks[e.owner].kind == Vlm)
    then (db.(evaluators := db.evaluators + {e}), Stored)
    else (db, Refused)
  }

  /** The latest-batch question as SQL answers it (session_repository.rs). */
  predicate IsLatest(db: Db, session: Id, id: Id)
    requires id in db.batches
  {
    var b := db.batches[id];
    && b.session == session
    && b.run in db.runs && db.runs[b.run].session == b.session
    && db.runs[b.run].outputRevision == Some(b.revision)
    && !exists o :: o in db.batches && db.batches[o].run == b.run
                    && db.batches[o].revision == b.revision && db.batches[o].attempt > b.attempt
  }

  // ----- runs -----------------------------------------------------------------

  ghost function Step(db: Db, cmd: Command): (Db, Reply) {
    match cmd
    case CreateBatch(batch, checks) => SqlCreate(db, batch, checks)
    case UpdateCheck(check, expected) => SqlUpdateCheck(db, check, expected)
    case ClaimSettlement(session, id, token) => SqlClaimSettlement(db, session, id, token)
    case Settle(session, id, token, status, aggregate, at) => SqlSettle(db, session, id, token, status, aggregate, at)
    case ReleaseSettlement(session, id, token) => SqlReleaseSettlement(db, session, id, token)
    case ClaimEffects(session, id, token) => SqlClaimEffects(db, session, id, token)
    case ReleaseEffects(session, id, token) => SqlReleaseEffects(db, session, id, token)
    case MarkApplied(session, id, token, at) => SqlMarkApplied(db, session, id, token, at)
    case RequestRefinement(session, id, token, at) => SqlRequestRefinement(db, session, id, token, at)
    case BindRefinement(session, id, token, at) => SqlBindRefinement(db, session, id, token, at)
    case SaveRun(run) => SqlSaveRun(db, run)
    case LinkOutputRevision(session, run, revision) => SqlLinkOutputRevision(db, session, run, revision)
    case CreateEvaluation(e) => SqlCreateEvaluation(db, e)
    case SaveEvaluator(e) => SqlSaveEvaluator(db, e)
    case SetArtifacts(links) => (db.(artifacts := links), Stored)
  }

  const EMPTY: Db := Db(map[], map[], map[], {}, {}, {})

  /** The database after the commands, in the order in which their transactions commit. */
  ghost function Exec(db: Db, cmds: seq<Command>): Db
    decreases cmds
  {
    if cmds == [] then db else Exec(Step(db, cmds[0]).0, cmds[1..])
  }

  lemma {:induction false} ExecAppend(db: Db, first: seq<Command>, rest: seq<Command>)
    ensures Exec(db, first + rest) == Exec(Exec(db, first), rest)
    decreases first
  {
    if first == [] {
      assert first + rest == rest;
    } else {
      ExecAppend(Step(db, first[0]).0, first[1..], rest);
      assert (first + rest)[1..] == first[1..] + rest;
    }
  }
}
