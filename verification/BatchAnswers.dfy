/**
  What each repository call answers on a state of the lifecycle, in terms of rows only: exactly when it succeeds and
  which row it then leaves. The invariant makes most guards, constraints and triggers of the code follow from a few
  conditions that a caller can check.
*/
module BatchAnswers {
  import opened Text
  import opened ValidationRows
  import opened SqlSteps
  import opened Lifecycle

  // ----- text -----------------------------------------------------------------

  /** The white space of Unicode, by ranges. */
  predicate WhiteSpace(c: char) {
    || ('\t' <= c <= '\r') || c == ' ' || c == '\U{85}' || c == '\U{A0}' || c == '\U{1680}'
    || ('\U{2000}' <= c <= '\U{200A}') || c == '\U{2028}' || c == '\U{2029}' || c == '\U{202F}'
    || c == '\U{205F}' || c == '\U{3000}'
  }

  /** A text is blank exactly if it holds nothing but white space. */
  lemma BlankIff(text: string)
    ensures Blank(text) <==> forall i :: 0 <= i < |text| ==> WhiteSpace(text[i])
  {
    forall i | 0 <= i < |text| ensures text[i] in WHITE_SPACE <==> WhiteSpace(text[i]) {
      WhiteSpaceIff(text[i]);
    }
  }

  lemma WhiteSpaceIff(c: char)
    ensures c in WHITE_SPACE <==> WhiteSpace(c)
  {
    if '\t' <= c <= '\r' {
      SmallRange(c as int - 9);
    }
    if '\U{2000}' <= c <= '\U{200A}' {
      SmallRange(c as int - 0x2000);
    }
  }

  lemma SmallRange(n: int)
    requires 0 <= n <= 10
    ensures n == 0 || n == 1 || n == 2 || n == 3 || n == 4 || n == 5 || n == 6 || n == 7 || n == 8 || n == 9 || n == 10
  {
  }

  // ----- one batch row ---------------------------------------------------------

  /** The row of the batch, if it belongs to the session. */
  predicate Stored(db: Db, session: Id, id: Id) {
    id in db.batches && db.batches[id].session == session
  }

  function Replace(db: Db, id: Id, row: Batch): (Db, Reply) {
    (db.(batches := db.batches[id := row]), Got(row))
  }

  /** Every check of the batch has succeeded or failed. */
  predicate ChecksDone(db: Db, id: Id) {
    forall c :: c in db.checks && db.checks[c].batch == id ==>
      db.checks[c].status == Succeeded || db.checks[c].status == Failed
  }

  lemma DoneMeansTerminal(db: Db, id: Id)
    requires OwnsTrio(db.checks, id)
    ensures ChecksDone(db, id) <==> AllTerminal(db.checks, id)
  {
    TrioFacts(db.checks, id, Structural);
  }

  /** A settlement claim is given exactly on an unsettled, unclaimed batch of the session whose checks are done. */
  lemma ClaimSettlementAnswer(db: Db, session: Id, id: Id, token: string)
    requires Inv(db)
    ensures Step(db, ClaimSettlement(session, id, token)) ==
            if Blank(token) then (db, Refused)
            else if Stored(db, session, id) && ChecksDone(db, id) && db.batches[id].settlementClaim.None?
                    && (db.batches[id].status == BatchQueued || db.batches[id].status == BatchRunning)
            then Replace(db, id, db.batches[id].(settlementClaim := Some(token)))
            else (db, NotClaimed)
  {
    hide Inv;
    if id in db.batches {
      Row(db, id);
      DoneMeansTerminal(db, id);
      hide OwnsTrio, AllTerminal, ChecksDone, Blank, SqlBlank;
    }
  }

  lemma Row(db: Db, id: Id)
    requires Inv(db) && id in db.batches
    ensures db.batches[id].id == id && BatchOk(db.batches[id]) && OwnsTrio(db.checks, id)
    ensures db.batches[id].settlementClaim.Some? ==> AllTerminal(db.checks, id)
  {
    hide ChecksOk, AttemptsOk, RunsOk, BatchOk, AllTerminal, OwnsTrio;
  }

  /** The holder of the claim may settle with a report object or as failed without a report; success needs a batch that
      was started. */
  lemma SettleAnswer(db: Db, session: Id, id: Id, token: string, status: BatchStatus, aggregate: Option<Report>, at: string)
    requires Inv(db)
    ensures Step(db, Command.Settle(session, id, token, status, aggregate, at)) ==
            if Stored(db, session, id) && db.batches[id].settlementClaim == Some(token) && !Blank(at)
               && ((status == BatchSucceeded && aggregate.Some? && aggregate.value.ObjectReport?
                    && db.batches[id].startedAt.Some?)
                   || (status == BatchFailed && aggregate.None?))
            then Replace(db, id, db.batches[id].(status := status, aggregate := aggregate, settlementClaim := None,
                                                 settledAt := Some(at)))
            else (db, Refused)
  {
    hide Inv;
    if id in db.batches {
      Row(db, id);
      hide OwnsTrio, AllTerminal, Blank, SqlBlank;
    }
  }

  lemma ReleaseSettlementAnswer(db: Db, session: Id, id: Id, token: string)
    requires Inv(db)
    ensures Step(db, ReleaseSettlement(session, id, token)) ==
            if Stored(db, session, id) && db.batches[id].settlementClaim == Some(token)
            then Replace(db, id, db.batches[id].(settlementClaim := None))
            else (db, Refused)
  {
    hide Inv;
    if id in db.batches {
      Row(db, id);
      hide OwnsTrio, AllTerminal, Blank, SqlBlank;
    }
  }

  /** The effects of a settled batch are given to one claimant until they are applied. */
  lemma ClaimEffectsAnswer(db: Db, session: Id, id: Id, token: string)
    requires Inv(db)
    ensures Step(db, ClaimEffects(session, id, token)) ==
            if Blank(token) then (db, Refused)
            else if Stored(db, session, id) && db.batches[id].settledAt.Some? && db.batches[id].effectsClaim.None?
                    && db.batches[id].appliedAt.None?
            then Replace(db, id, db.batches[id].(effectsClaim := Some(token)))
            else (db, NotClaimed)
  {
    hide Inv;
    NonBlankIsNonBlankForSql(token);
    if id in db.batches {
      Row(db, id);
      hide OwnsTrio, AllTerminal, Blank, SqlBlank;
    }
  }

  lemma NonBlankIsNonBlankForSql(text: string)
    ensures !Blank(text) ==> !SqlBlank(text)
  {
    assert ' ' in WHITE_SPACE;
  }

  lemma ReleaseEffectsAnswer(db: Db, session: Id, id: Id, token: string)
    requires Inv(db)
    ensures Step(db, ReleaseEffects(session, id, token)) ==
            if Stored(db, session, id) && db.batches[id].effectsClaim == Some(token)
            then Replace(db, id, db.batches[id].(effectsClaim := None))
            else (db, Refused)
  {
    hide Inv;
    if id in db.batches {
      Row(db, id);
      hide OwnsTrio, AllTerminal, Blank, SqlBlank;
    }
  }

  /** The owner of the effects marks them as applied, and so gives them up. */
  lemma MarkAppliedAnswer(db: Db, session: Id, id: Id, token: string, at: string)
    requires Inv(db)
    ensures Step(db, Command.MarkApplied(session, id, token, at)) ==
            if Stored(db, session, id) && db.batches[id].effectsClaim == Some(token) && !Blank(at)
            then Replace(db, id, db.batches[id].(effectsClaim := None, appliedAt := Some(at)))
            else (db, Refused)
  {
    hide Inv;
    NonBlankIsNonBlankForSql(at);
    if id in db.batches {
      Row(db, id);
      hide OwnsTrio, AllTerminal, Blank, SqlBlank;
    }
  }

  /** The report of the batch is an object whose `passed` is false, or the number 0. */
  predicate SaysRejected(b: Batch) {
    b.aggregate.Some? && b.aggregate.value.ObjectReport?
    && match b.aggregate.value.passed
       case Flag(flag) => !flag
       case Number(number) => number == 0.0
       case _ => false
  }

  /** The owner of the effects asks for refinement of a rejected batch, once. */
  lemma RequestRefinementAnswer(db: Db, session: Id, id: Id, token: string, at: string)
    requires Inv(db)
    ensures Step(db, Command.RequestRefinement(session, id, token, at)) ==
            if Stored(db, session, id) && db.batches[id].effectsClaim == Some(token) && SaysRejected(db.batches[id])
               && db.batches[id].requestedAt.None? && !Blank(at)
            then Replace(db, id, db.batches[id].(requestedAt := Some(at)))
            else (db, Refused)
  {
    hide Inv;
    NonBlankIsNonBlankForSql(at);
    if id in db.batches {
      Row(db, id);
      hide OwnsTrio, AllTerminal, Blank, SqlBlank;
    }
  }

  /** The owner of the effects binds a requested refinement once the run of the batch has an external turn. */
  lemma BindRefinementAnswer(db: Db, session: Id, id: Id, token: string, at: string)
    requires Inv(db)
    ensures Step(db, Command.BindRefinement(session, id, token, at)) ==
            if Stored(db, session, id) && db.batches[id].effectsClaim == Some(token)
               && db.batches[id].requestedAt.Some? && db.runs[db.batches[id].run].turn.Some? && !Blank(at)
            then Replace(db, id, db.batches[id].(boundAt := Some(at), effectsClaim := None, appliedAt := Some(at)))
            else (db, Refused)
  {
    hide Inv;
    NonBlankIsNonBlankForSql(at);
    if id in db.batches {
      Row(db, id);
      RunOf(db, id);
      hide OwnsTrio, AllTerminal, Blank, SqlBlank;
    }
  }

  lemma RunOf(db: Db, id: Id)
    requires Inv(db) && id in db.batches
    ensures var b := db.batches[id]; b.run in db.runs && db.runs[b.run].session == b.session
  {
    hide ChecksOk, AttemptsOk, BatchesOk;
  }

  // ----- checks -----------------------------------------------------------------

  /** The columns that a check update never changes. */
  predicate SameCheck(was: Check, now: Check) {
    && was.id == now.id && was.batch == now.batch && was.session == now.session && was.kind == now.kind
    && was.contract == now.contract && was.createdAt == now.createdAt
  }

  /** The status may stay open, or move: queued to running or failed, running to succeeded or failed, and a running
      structural or DFM check back to queued. */
  predicate StatusMoves(kind: CheckKind, was: CheckStatus, now: CheckStatus) {
    match (was, now)
    case (Queued, Queued) => true
    case (Queued, Running) => true
    case (Queued, Succeeded) => false
    case (Queued, Failed) => true
    case (Running, Queued) => kind == Structural || kind == Dfm
    case (Running, Running) => true
    case (Running, Succeeded) => true
    case (Running, Failed) => true
    case (Succeeded, _) => false
    case (Failed, _) => false
  }

  predicate SomeText(text: Option<string>) {
    text.Some? && exists i :: 0 <= i < |text.value| && text.value[i] != ' '
  }

  /** The columns that a status needs and those that it excludes. */
  predicate ColumnsFit(c: Check) {
    && (c.evaluator.Some? <==> c.turn.Some?) && (c.turn.Some? ==> SomeText(c.turn))
    && (c.startedAt.Some? <==> c.status == Running || c.status == Succeeded || (c.status == Failed && c.startedAt.Some?))
    && (c.completedAt.Some? <==> c.status == Succeeded || c.status == Failed)
    && (c.report.Some? <==> c.status == Succeeded) && (c.passed.Some? <==> c.status == Succeeded)
    && (c.error.Some? <==> c.status == Failed) && (c.error.Some? ==> SomeText(c.error))
    && (c.status == Queued ==> c.evaluator.None?)
  }

  /** The rows that a check may become, with a thread of its own if it names one. */
  predicate MayBecome(db: Db, was: Check, now: Check) {
    && SameCheck(was, now) && StatusMoves(was.kind, was.status, now.status) && ColumnsFit(now)
    && (now.evaluator.Some? ==> Evaluator(now.evaluator.value, was.session, was.id) in db.evaluators)
  }

  /** The batch of a check that runs is running since the check started, unless it was before. */
  function WithStartedBatch(db: Db, check: Check): map<Id, Batch>
    requires check.batch in db.batches
  {
    if check.status == Running && db.batches[check.batch].status == BatchQueued
    then db.batches[check.batch := db.batches[check.batch].(status := BatchRunning, startedAt := check.startedAt)]
    else db.batches
  }

  /** A check update succeeds exactly if the stored row has the expected status and may become the given row; then that
      row is stored, its batch is started if need be, and nothing else changes. */
  lemma UpdateCheckAnswer(db: Db, check: Check, expected: CheckStatus)
    requires Inv(db)
    ensures check.id in db.checks ==> db.checks[check.id].batch in db.batches
    ensures Step(db, UpdateCheck(check, expected)) ==
            if check.id in db.checks && db.checks[check.id].status == expected
               && MayBecome(db, db.checks[check.id], check)
            then (db.(checks := db.checks[check.id := check], batches := WithStartedBatch(db, check)), CheckSaved(check))
            else (db, Refused)
  {
    hide Inv, SqlUpdateCheck, MayBecome, WithStartedBatch;
    if check.id in db.checks {
      StoredCheck(db, check.id);
      Row(db, db.checks[check.id].batch);
      if Unfinished(db.checks[check.id].status) {
        UnfinishedMeansUnclaimed(db, check.id);
      }
      StoredCheckAnswer(db, check, expected);
    } else {
      UnknownCheckIsRefused(db, check, expected);
    }
  }

  predicate Unfinished(status: CheckStatus) { status == Queued || status == Running }

  lemma UnfinishedMeansUnclaimed(db: Db, c: Id)
    requires Inv(db) && c in db.checks && db.checks[c].batch in db.batches && Unfinished(db.checks[c].status)
    ensures db.batches[db.checks[c].batch].settlementClaim.None?
  {
    hide ChecksOk, AttemptsOk, RunsOk;
    NonTerminalMeansUnclaimed(db, c);
  }

  lemma UnknownCheckIsRefused(db: Db, check: Check, expected: CheckStatus)
    requires check.id !in db.checks
    ensures SqlUpdateCheck(db, check, expected) == (db, Refused)
  {
  }

  lemma StoredCheck(db: Db, c: Id)
    requires Inv(db) && c in db.checks
    ensures db.checks[c].id == c && CheckRowOk(db.checks[c])
    ensures db.checks[c].batch in db.batches && db.batches[db.checks[c].batch].session == db.checks[c].session
  {
    hide BatchesOk, AttemptsOk, RunsOk, CheckRowOk, HasIdentity;
    assert CheckOk(db, db.checks[c]);
  }

  lemma ColumnsFitIff(check: Check)
    requires !SqlBlank(check.createdAt)
    ensures CheckRowOk(check) <==> ColumnsFit(check)
  {
  }

  lemma StoredCheckAnswer(db: Db, check: Check, expected: CheckStatus)
    requires check.id in db.checks && db.checks[check.id].id == check.id && CheckRowOk(db.checks[check.id])
    requires var batch := db.checks[check.id].batch;
             && batch in db.batches && db.batches[batch].id == batch && BatchOk(db.batches[batch])
             && db.batches[batch].session == db.checks[check.id].session
             && (Unfinished(db.checks[check.id].status) ==> db.batches[batch].settlementClaim.None?)
    ensures SqlUpdateCheck(db, check, expected) ==
            if db.checks[check.id].status == expected && MayBecome(db, db.checks[check.id], check)
            then (db.(checks := db.checks[check.id := check], batches := WithStartedBatch(db, check)), CheckSaved(check))
            else (db, Refused)
  {
    hide CheckRowOk, ColumnsFit, HasIdentity, AllTerminal, SqlBlank, Blank;
    NotBlankWhenStored(db.checks[check.id]);
    if SameCheck(db.checks[check.id], check) {
      ColumnsFitIff(check);
    }
    if CheckRowOk(check) && check.status == Running {
      RunningHasStarted(check);
    }
  }

  lemma NotBlankWhenStored(c: Check)
    requires CheckRowOk(c)
    ensures !SqlBlank(c.createdAt)
  {
  }

  lemma RunningHasStarted(c: Check)
    requires CheckRowOk(c) && c.status == Running
    ensures c.startedAt.Some?
  {
  }

  // ----- a new batch -------------------------------------------------------------

  /** The contract with the identity written into it; every other member is kept. */
  predicate Stamped(was: Contract, now: Contract, batch: Id, check: Id, attempt: nat) {
    was.ObjectContract? && now == ObjectContract(
      was.members["batchId" := Words(batch)]["checkId" := Words(check)]["evaluationId" := Words(check)]["attempt" := Count(attempt)])
  }

  /** The identity is written, and nothing else in the contract changes. */
  lemma StampedMembers(contract: Contract, batch: Id, check: Id, attempt: nat)
    requires StampIdentity(contract, batch, check, attempt).Some?
    ensures Stamped(contract, StampIdentity(contract, batch, check, attempt).value, batch, check, attempt)
  {
  }

  /** The contract does not claim another identity. */
  predicate TakesIdentity(contract: Contract, batch: Id, check: Id, attempt: nat) {
    && contract.ObjectContract?
    && ("batchId" in contract.members ==> contract.members["batchId"] == Words(batch))
    && ("checkId" in contract.members ==> contract.members["checkId"] == Words(check))
    && ("evaluationId" in contract.members ==> contract.members["evaluationId"] == Words(check))
    && ("attempt" in contract.members ==> contract.members["attempt"] == Count(attempt))
  }

  /** A batch as it is created: queued, with no other mark. */
  predicate NewBatch(b: Batch) {
    && b == Batch(b.id, b.session, b.run, b.revision, b.artifact, b.attempt, BatchQueued, None, b.createdAt, None,
                  None, None, None, None, None, None)
    && exists i :: 0 <= i < |b.createdAt| && b.createdAt[i] != ' '
  }

  /** A check of the batch as it is created. */
  predicate NewCheck(b: Batch, c: Check) {
    && c == Check(c.id, b.id, b.session, c.kind, Queued, c.contract, None, None, None, None, None, c.createdAt, None, None)
    && exists i :: 0 <= i < |c.createdAt| && c.createdAt[i] != ' '
  }

  /** One new check of each kind, under three new ids. */
  predicate NewChecks(db: Db, b: Batch, checks: seq<Check>) {
    && |checks| == 3
    && (forall i :: 0 <= i < 3 ==> NewCheck(b, checks[i]) && checks[i].id !in db.checks)
    && (forall i, j :: 0 <= i < j < 3 ==> checks[i].id != checks[j].id && checks[i].kind != checks[j].kind)
  }

  /** The run, with this output revision, and the artifact of the batch are stored. */
  predicate Grounded(db: Db, b: Batch) {
    && b.run in db.runs && db.runs[b.run].session == b.session && db.runs[b.run].outputRevision == Some(b.revision)
    && ArtifactLink(b.session, b.revision, b.artifact) in db.artifacts
  }

  /** The attempt follows all attempts of the pair, or is the first. */
  ghost predicate FollowsAll(batches: map<Id, Batch>, run: Id, revision: Id, attempt: nat) {
    && attempt >= 1
    && (forall o :: o in batches && batches[o].run == run && batches[o].revision == revision ==> batches[o].attempt < attempt)
    && (attempt > 1 ==> exists o :: o in batches && batches[o].run == run && batches[o].revision == revision
                                    && batches[o].attempt == attempt - 1)
  }

  /** Nobody owns the effects of a batch of the pair. */
  predicate NoEffectsOwned(batches: map<Id, Batch>, run: Id, revision: Id) {
    forall o :: o in batches && batches[o].run == run && batches[o].revision == revision ==> batches[o].effectsClaim.None?
  }

  ghost predicate MayCreate(db: Db, batch: Batch, checks: seq<Check>, attempt: nat) {
    && NewBatch(batch) && batch.id !in db.batches && NewChecks(db, batch, checks) && Grounded(db, batch)
    && NoEffectsOwned(db.batches, batch.run, batch.revision) && attempt <= 0xFFFF_FFFF
    && forall i :: 0 <= i < 3 ==> TakesIdentity(checks[i].contract, batch.id, checks[i].id, attempt)
  }

  /** The four rows that are inserted. */
  ghost predicate CreatedRows(db: Db, batch: Batch, checks: seq<Check>, attempt: nat, after: Db, rows: seq<Check>) {
    && |checks| == |rows| == 3
    && (forall i :: 0 <= i < 3 ==>
          && rows[i] == checks[i].(contract := rows[i].contract)
          && Stamped(checks[i].contract, rows[i].contract, batch.id, checks[i].id, attempt))
    && after == db.(batches := db.batches[batch.id := batch.(attempt := attempt)],
                    checks := db.checks[rows[0].id := rows[0]][rows[1].id := rows[1]][rows[2].id := rows[2]])
  }

  /** A batch is created exactly if it and its checks are new, its graph is stored, nobody owns effects of the pair and no
      contract claims another identity; it gets the attempt that follows all others. */
  lemma CreateAnswer(db: Db, batch: Batch, checks: seq<Check>) returns (attempt: nat)
    requires Inv(db)
    ensures FollowsAll(db.batches, batch.run, batch.revision, attempt)
    ensures var (after, reply) := Step(db, CreateBatch(batch, checks));
            if MayCreate(db, batch, checks, attempt)
            then reply.Created? && reply.batch == batch.(attempt := attempt)
                 && CreatedRows(db, batch, checks, attempt, after, reply.checks)
            else (after, reply) == (db, Refused)
  {
    hide Inv, SqlCreate, CreatedRows, MayCreate;
    attempt := NextAttempt(db.batches, batch.run, batch.revision);
    NextFollowsAll(db.batches, batch.run, batch.revision);
    if batch.id !in db.batches {
      NoOrphanChecks(db, batch.id);
    }
    NoEffectsIff(db, batch.run, batch.revision);
    if MayCreate(db, batch, checks, attempt) {
      AllowedIsCreated(db, batch, checks);
    } else if SqlCreate(db, batch, checks) != (db, Refused) {
      CreatedWasAllowed(db, batch, checks);
      assert false;
    }
  }

  lemma NextFollowsAll(batches: map<Id, Batch>, run: Id, revision: Id)
    ensures FollowsAll(batches, run, revision, NextAttempt(batches, run, revision))
  {
    var top := MaxOf(Attempts(batches, run, revision));
    forall o | o in batches && batches[o].run == run && batches[o].revision == revision ensures batches[o].attempt <= top {
      assert batches[o].attempt in Attempts(batches, run, revision);
    }
  }

  lemma NoOrphanChecks(db: Db, id: Id)
    requires Inv(db) && id !in db.batches
    ensures ChecksOf(db.checks, id) == {}
  {
    hide BatchesOk, AttemptsOk, RunsOk, CheckRowOk, HasIdentity;
    forall c | c in db.checks ensures db.checks[c].batch != id {
      assert CheckOk(db, db.checks[c]);
    }
  }

  lemma NoEffectsIff(db: Db, run: Id, revision: Id)
    requires Inv(db)
    ensures NoEffectsOwned(db.batches, run, revision) <==> !EffectsOwned(db.batches, run, revision)
  {
    hide ChecksOk, AttemptsOk, RunsOk, AllTerminal, OwnsTrio;
    forall o | o in db.batches && db.batches[o].effectsClaim.Some? ensures db.batches[o].appliedAt.None? {
      assert BatchOk(db.batches[o]);
    }
  }

  lemma StampAllIff(batch: Id, checks: seq<Check>, attempt: nat)
    requires |checks| == 3
    ensures StampAll(checks, batch, attempt).Some?
            <==> forall i :: 0 <= i < 3 ==> TakesIdentity(checks[i].contract, batch, checks[i].id, attempt)
    ensures StampAll(checks, batch, attempt).Some? ==>
              forall i :: 0 <= i < 3 ==>
                var row := StampAll(checks, batch, attempt).value[i];
                && row == checks[i].(contract := row.contract)
                && Stamped(checks[i].contract, row.contract, batch, checks[i].id, attempt)
  {
    hide StampIdentity, Stamped, TakesIdentity;
    StampOneIff(checks[0].contract, batch, checks[0].id, attempt);
    StampOneIff(checks[1].contract, batch, checks[1].id, attempt);
    StampOneIff(checks[2].contract, batch, checks[2].id, attempt);
  }

  lemma StampOneIff(contract: Contract, batch: Id, check: Id, attempt: nat)
    ensures StampIdentity(contract, batch, check, attempt).Some? <==> TakesIdentity(contract, batch, check, attempt)
    ensures StampIdentity(contract, batch, check, attempt).Some? ==>
              Stamped(contract, StampIdentity(contract, batch, check, attempt).value, batch, check, attempt)
  {
    StampIdentityWorksIff(contract, batch, check, attempt);
    if StampIdentity(contract, batch, check, attempt).Some? {
      StampedMembers(contract, batch, check, attempt);
    }
    hide StampIdentity;
  }

  /** The arguments in the words of the code. */
  lemma NewRowsIff(db: Db, batch: Batch, checks: seq<Check>)
    requires |checks| == 3
    ensures NewBatch(batch) && NewChecks(db, batch, checks)
            <==> CreateArgumentsOk(batch, checks) && !SqlBlank(batch.createdAt) && ChecksFit(db.checks, batch, checks)
  {
    if NewChecks(db, batch, checks) {
      KindsDiffer(checks);
    } else if CreateArgumentsOk(batch, checks) {
      KindsDiffer(checks);
    }
  }

  lemma KindsDiffer(checks: seq<Check>)
    requires |checks| == 3
    ensures {checks[0].kind, checks[1].kind, checks[2].kind} == {Structural, Dfm, Vlm}
            <==> checks[0].kind != checks[1].kind && checks[0].kind != checks[2].kind && checks[1].kind != checks[2].kind
  {
    var kinds := {checks[0].kind, checks[1].kind, checks[2].kind};
    if kinds == {Structural, Dfm, Vlm} {
      assert Structural in kinds && Dfm in kinds && Vlm in kinds;
    }
  }

  lemma StampKeepsFit(checks: map<Id, Check>, batch: Batch, attempt: nat, rows: seq<Check>, stamped: seq<Check>)
    requires |rows| == |stamped| == 3 && forall i :: 0 <= i < 3 ==> stamped[i] == rows[i].(contract := stamped[i].contract)
    ensures ChecksFit(checks, batch.(attempt := attempt), stamped) <==> ChecksFit(checks, batch, rows)
  {
    forall i | 0 <= i < 3 ensures CheckRowOk(stamped[i]) == CheckRowOk(rows[i]) {
      assert stamped[i] == rows[i].(contract := stamped[i].contract);
    }
    hide CheckRowOk;
  }

  lemma AllowedIsCreated(db: Db, batch: Batch, checks: seq<Check>)
    requires var attempt := NextAttempt(db.batches, batch.run, batch.revision);
             MayCreate(db, batch, checks, attempt) && attempt >= 1
    requires NoEffectsOwned(db.batches, batch.run, batch.revision) <==> !EffectsOwned(db.batches, batch.run, batch.revision)
    requires batch.id !in db.batches ==> ChecksOf(db.checks, batch.id) == {}
    ensures var attempt := NextAttempt(db.batches, batch.run, batch.revision);
            var (after, reply) := SqlCreate(db, batch, checks);
            reply.Created? && reply.batch == batch.(attempt := attempt)
            && CreatedRows(db, batch, checks, attempt, after, reply.checks)
  {
    hide NextAttempt, StampAll, Stamped, TakesIdentity, EffectsOwned, NoEffectsOwned, ChecksFit, CreateArgumentsOk, NewCheck, ChecksOf, SqlBlank;
    var attempt := NextAttempt(db.batches, batch.run, batch.revision);
    NewRowsIff(db, batch, checks);
    StampAllIff(batch.id, checks, attempt);
    StampKeepsFit(db.checks, batch, attempt, checks, StampAll(checks, batch.id, attempt).value);
  }

  lemma CreatedWasAllowed(db: Db, batch: Batch, checks: seq<Check>)
    requires SqlCreate(db, batch, checks) != (db, Refused)
    requires NoEffectsOwned(db.batches, batch.run, batch.revision) <==> !EffectsOwned(db.batches, batch.run, batch.revision)
    ensures MayCreate(db, batch, checks, NextAttempt(db.batches, batch.run, batch.revision))
  {
    hide NextAttempt, StampAll, Stamped, TakesIdentity, EffectsOwned, NoEffectsOwned, ChecksFit, NewChecks, ChecksOf, NewBatch, SqlBlank;
    var attempt := NextAttempt(db.batches, batch.run, batch.revision);
    NewRowsIff(db, batch, checks);
    StampAllIff(batch.id, checks, attempt);
    StampKeepsFit(db.checks, batch, attempt, checks, StampAll(checks, batch.id, attempt).value);
  }

  /** The created batch is the latest of its run, and no other batch of the pair is. */
  lemma CreatedIsTheLatest(db: Db, batch: Batch, checks: seq<Check>)
    requires Inv(db) && Step(db, CreateBatch(batch, checks)).1.Created?
    ensures var after := Step(db, CreateBatch(batch, checks)).0;
            && batch.id in after.batches && IsLatest(after, batch.session, batch.id)
            && forall o, session | o in after.batches && o != batch.id
                                   && after.batches[o].run == batch.run && after.batches[o].revision == batch.revision
                 :: !IsLatest(after, session, o)
  {
    hide Inv, NewBatch, NewChecks, NoEffectsOwned, Stamped, TakesIdentity, Step;
    var attempt := CreateAnswer(db, batch, checks);
    var after := Step(db, CreateBatch(batch, checks)).0;
    assert after.batches[batch.id] == batch.(attempt := attempt);
  }

  // ----- the tables around the batches ------------------------------------------

  /** The output revision of a run may move exactly while nobody owns the effects of a batch of the run. */
  lemma LinkRevisionAnswer(db: Db, session: Id, run: Id, revision: Id)
    requires Inv(db)
    ensures Step(db, LinkOutputRevision(session, run, revision)) ==
            if run in db.runs && db.runs[run].session == session
               && (db.runs[run].outputRevision == Some(revision)
                   || forall o :: o in db.batches && db.batches[o].run == run ==> db.batches[o].effectsClaim.None?)
            then (db.(runs := db.runs[run := Run(run, session, Some(revision), db.runs[run].turn)]), Reply.Stored)
            else (db, Refused)
  {
    hide Inv, RevisionLocked;
    if run in db.runs {
      LockedIff(db, run);
    }
  }

  lemma LockedIff(db: Db, run: Id)
    requires Inv(db) && run in db.runs
    ensures db.runs[run].id == run
    ensures !RevisionLocked(db.batches, run, db.runs[run].session)
            <==> forall o :: o in db.batches && db.batches[o].run == run ==> db.batches[o].effectsClaim.None?
  {
    hide ChecksOk, AttemptsOk, OwnsTrio, AllTerminal, BatchOk;
    forall o | o in db.batches && db.batches[o].run == run && db.batches[o].effectsClaim.Some?
      ensures db.batches[o].appliedAt.None? && db.batches[o].session == db.runs[run].session
    {
      ClaimedIsUnapplied(db.batches[o]);
    }
  }

  lemma ClaimedIsUnapplied(b: Batch)
    requires BatchOk(b) && b.effectsClaim.Some?
    ensures b.appliedAt.None?
  {
  }

  /** A thread is registered for an evaluation of the session or for a VLM check of the session, and for nothing else. */
  lemma SaveEvaluatorAnswer(db: Db, e: Evaluator)
    ensures Step(db, SaveEvaluator(e)) ==
            if (exists o :: o in db.evaluations && o.id == e.owner && o.session == e.session)
               || (e.owner in db.checks && db.checks[e.owner].session == e.session && db.checks[e.owner].kind == Vlm)
            then (db.(evaluators := db.evaluators + {e}), Reply.Stored)
            else (db, Refused)
  {
    if exists o :: o in db.evaluations && o.id == e.owner && o.session == e.session {
      var o :| o in db.evaluations && o.id == e.owner && o.session == e.session;
      assert o == Evaluation(e.owner, e.session);
    }
  }
}
