/**
  The rows of the validation tables, the constraints and triggers that the
  schema puts on them, and the commands that move them
  (protocol/validation.rs, storage/migrations.rs).
*/
module ValidationRows {
  import opened Text

  type Id = string

  datatype BatchStatus = BatchQueued | BatchRunning | BatchSucceeded | BatchFailed
  datatype CheckKind = Structural | Dfm | Vlm
  datatype CheckStatus = Queued | Running | Succeeded | Failed

  /** The member `passed` of an aggregate report. */
  datatype Passed = Absent | Flag(flag: bool) | Number(number: real) | OtherPassed

  /** A JSON aggregate report: an object with its `passed` member, or not an object. */
  datatype Report = ObjectReport(passed: Passed, rest: string) | OtherReport(text: string)

  /** One member of a check's input contract. */
  datatype Member = Words(words: string) | Count(count: int) | OtherMember(json: string)
  datatype Contract = ObjectContract(members: map<string, Member>) | OtherContract(text: string)

  datatype Batch = Batch(
    id: Id, session: Id, run: Id, revision: Id, artifact: Id, attempt: nat,
    status: BatchStatus, aggregate: Option<Report>, createdAt: string, startedAt: Option<string>,
    settlementClaim: Option<string>, settledAt: Option<string>, effectsClaim: Option<string>,
    requestedAt: Option<string>, boundAt: Option<string>, appliedAt: Option<string>)

  datatype Check = Check(
    id: Id, batch: Id, session: Id, kind: CheckKind, status: CheckStatus, contract: Contract,
    report: Option<string>, passed: Option<bool>, error: Option<string>,
    evaluator: Option<Id>, turn: Option<string>,
    createdAt: string, startedAt: Option<string>, completedAt: Option<string>)

  /** The columns of `agent_runs` that the validation steps read. */
  datatype Run = Run(id: Id, session: Id, outputRevision: Option<Id>, turn: Option<string>)

  /** A row of `validation_evaluations`, which may own a validation thread as well. */
  datatype Evaluation = Evaluation(id: Id, session: Id)

  /** A validation thread: the columns of `agent_threads` that the check triggers read. */
  datatype Evaluator = Evaluator(thread: Id, session: Id, owner: Id)

  /** A present artifact of a revision that belongs to a session. */
  datatype ArtifactLink = ArtifactLink(session: Id, revision: Id, artifact: Id)

  datatype Db = Db(
    batches: map<Id, Batch>, checks: map<Id, Check>, runs: map<Id, Run>,
    evaluations: set<Evaluation>, evaluators: set<Evaluator>, artifacts: set<ArtifactLink>)

  const U32_MAX: nat := 0xFFFF_FFFF

  /** One atomic step of any process that shares the database. */
  datatype Command =
    | CreateBatch(batch: Batch, checks: seq<Check>)
    | UpdateCheck(check: Check, expected: CheckStatus)
    | ClaimSettlement(session: Id, id: Id, token: string)
    | Settle(session: Id, id: Id, token: string, status: BatchStatus, aggregate: Option<Report>, at: string)
    | ReleaseSettlement(session: Id, id: Id, token: string)
    | ClaimEffects(session: Id, id: Id, token: string)
    | ReleaseEffects(session: Id, id: Id, token: string)
    | MarkApplied(session: Id, id: Id, token: string, at: string)
    | RequestRefinement(session: Id, id: Id, token: string, at: string)
    | BindRefinement(session: Id, id: Id, token: string, at: string)
    | SaveRun(run: Run)
    | LinkOutputRevision(session: Id, runId: Id, revision: Id)
    | CreateEvaluation(evaluation: Evaluation)
    | SaveEvaluator(evaluator: Evaluator)
    | SetArtifacts(links: set<ArtifactLink>)

  datatype Reply =
    | Created(batch: Batch, checks: seq<Check>)
    | CheckSaved(check: Check)
    | Got(row: Batch)
    | NotClaimed
    | Stored
    | Refused

  // ----- what a row says ------------------------------------------------------

  predicate Terminal(status: CheckStatus) { status == Succeeded || status == Failed }

  predicate Open(status: BatchStatus) { status == BatchQueued || status == BatchRunning }

  predicate IsObject(report: Option<Report>) { report.Some? && report.value.ObjectReport? }

  /** `json_extract(aggregate_report_json, '$.passed') = 0` in SQL. */
  predicate RejectedInSql(report: Option<Report>) {
    && IsObject(report)
    && (report.value.passed == Flag(false)
        || (report.value.passed.Number? && report.value.passed.number == 0.0))
  }

  /** `report.get("passed").and_then(as_bool) == Some(false)` in Rust. */
  predicate RejectedInRust(report: Option<Report>) {
    IsObject(report) && report.value.passed == Flag(false)
  }

  function ChecksOf(checks: map<Id, Check>, batch: Id): set<Id> {
    set c | c in checks && checks[c].batch == batch
  }

  function TerminalChecksOf(checks: map<Id, Check>, batch: Id): set<Id> {
    set c | c in checks && checks[c].batch == batch && Terminal(checks[c].status)
  }

  /** Exactly three checks, none of them queued or running. */
  predicate AllTerminal(checks: map<Id, Check>, batch: Id) {
    && |ChecksOf(checks, batch)| == 3
    && forall c :: c in ChecksOf(checks, batch) ==> Terminal(checks[c].status)
  }

  predicate PristineBatch(b: Batch) {
    && b.status == BatchQueued && b.aggregate.None? && b.startedAt.None?
    && b.settlementClaim.None? && b.settledAt.None? && b.effectsClaim.None?
    && b.requestedAt.None? && b.boundAt.None? && b.appliedAt.None?
  }

  predicate PristineCheck(c: Check) {
    && c.status == Queued && c.report.None? && c.passed.None? && c.error.None?
    && c.evaluator.None? && c.turn.None? && c.startedAt.None? && c.completedAt.None?
  }

  predicate EffectsOwned(batches: map<Id, Batch>, run: Id, revision: Id) {
    exists id :: id in batches && batches[id].run == run && batches[id].revision == revision
      && batches[id].effectsClaim.Some? && batches[id].appliedAt.None?
  }

  // ----- attempts and contract identity ---------------------------------------

  function Attempts(batches: map<Id, Batch>, run: Id, revision: Id): set<nat> {
    set id | id in batches && batches[id].run == run && batches[id].revision == revision
      :: batches[id].attempt
  }

  ghost function MaxOf(s: set<nat>): (m: nat)
    ensures forall x :: x in s ==> x <= m
    ensures s == {} ==> m == 0
    ensures s != {} ==> m in s
  {
    if s == {} then 0
    else
      var x :| x in s;
      var rest := MaxOf(s - {x});
      assert s == {x} + (s - {x});
      if x <= rest && s - {x} != {} then rest else x
  }

  /** A member that is already present must agree; otherwise it is written. */
  function Stamp(members: map<string, Member>, key: string, expected: Member): Option<map<string, Member>> {
    if key in members && members[key] != expected then None else Some(members[key := expected])
  }

  function StampIdentity(contract: Contract, batch: Id, check: Id, attempt: nat): (r: Option<Contract>)
    ensures r.Some? ==> HasIdentity(r.value, batch, check, attempt)
  {
    match contract
    case OtherContract(_) => None
    case ObjectContract(m0) =>
      match Stamp(m0, "batchId", Words(batch))
      case None => None
      case Some(m1) =>
        match Stamp(m1, "checkId", Words(check))
        case None => None
        case Some(m2) =>
          match Stamp(m2, "evaluationId", Words(check))
          case None => None
          case Some(m3) =>
            match Stamp(m3, "attempt", Count(attempt))
            case None => None
            case Some(m4) => Some(ObjectContract(m4))
  }

  predicate Carries(members: map<string, Member>, key: string, expected: Member) {
    key in members && members[key] == expected
  }

  predicate HasIdentity(contract: Contract, batch: Id, check: Id, attempt: nat) {
    && contract.ObjectContract?
    && Carries(contract.members, "batchId", Words(batch))
    && Carries(contract.members, "checkId", Words(check))
    && Carries(contract.members, "evaluationId", Words(check))
    && Carries(contract.members, "attempt", Count(attempt))
  }

  /** Stamping fails exactly on a contract that is no object or that already claims another identity. */
  lemma StampIdentityWorksIff(contract: Contract, batch: Id, check: Id, attempt: nat)
    ensures StampIdentity(contract, batch, check, attempt).Some? <==>
            contract.ObjectContract?
            && ("batchId" in contract.members ==> contract.members["batchId"] == Words(batch))
            && ("checkId" in contract.members ==> contract.members["checkId"] == Words(check))
            && ("evaluationId" in contract.members ==> contract.members["evaluationId"] == Words(check))
            && ("attempt" in contract.members ==> contract.members["attempt"] == Count(attempt))
  {
    assert "batchId" != "checkId" && "batchId" != "attempt" && "checkId" != "attempt" by {
      assert "batchId"[0] == 'b' && "checkId"[0] == 'c' && "attempt"[0] == 'a';
    }
    assert "evaluationId"[0] == 'e';
  }

  // ----- constraints of the schema --------------------------------------------

  predicate BatchRowOk(b: Batch) {
    && b.attempt >= 1
    && !SqlBlank(b.createdAt)
    && match b.status
       case BatchQueued =>
         b.startedAt.None? && b.aggregate.None? && b.settledAt.None? && b.effectsClaim.None? && b.appliedAt.None?
       case BatchRunning =>
         b.startedAt.Some? && b.aggregate.None? && b.settledAt.None? && b.effectsClaim.None? && b.appliedAt.None?
       case BatchSucceeded =>
         b.startedAt.Some? && b.aggregate.Some? && b.settlementClaim.None? && b.settledAt.Some?
       case BatchFailed =>
         b.aggregate.None? && b.settlementClaim.None? && b.settledAt.Some?
  }

  predicate CheckRowOk(c: Check) {
    && !SqlBlank(c.createdAt)
    && (c.evaluator.Some? <==> c.turn.Some?)
    && (c.turn.Some? ==> !SqlBlank(c.turn.value))
    && match c.status
       case Queued =>
         && c.evaluator.None? && c.startedAt.None? && c.completedAt.None?
         && c.report.None? && c.passed.None? && c.error.None?
       case Running =>
         c.startedAt.Some? && c.completedAt.None? && c.report.None? && c.passed.None? && c.error.None?
       case Succeeded =>
         c.startedAt.Some? && c.completedAt.Some? && c.report.Some? && c.passed.Some? && c.error.None?
       case Failed =>
         && c.completedAt.Some? && c.error.Some? && !SqlBlank(c.error.value)
         && c.report.None? && c.passed.None?
  }

  // ----- triggers of the schema -----------------------------------------------

  /** The columns named in the SET list of an UPDATE of `validation_batches`. */
  datatype Column =
    | StatusCol | AggregateCol | StartedCol | SettlementCol | SettledCol
    | EffectsCol | RequestedCol | BoundCol | AppliedCol

  predicate StatusMayMove(was: BatchStatus, now: BatchStatus) {
    was == now || was == BatchQueued || (was == BatchRunning && !Open(now))
  }

  predicate EffectsMayMove(was: Batch, now: Batch) {
    && !Open(was.status) && was.settledAt.Some? && was.appliedAt.None?
    && (was.effectsClaim.None? ==>
          now.effectsClaim.Some? && !SqlBlank(now.effectsClaim.value) && now.appliedAt.None?)
    && (was.effectsClaim.Some? ==>
          || (now.effectsClaim == was.effectsClaim && now.appliedAt.None?)
          || (now.effectsClaim.None? && now.appliedAt.None?)
          || (now.effectsClaim.None? && now.appliedAt.Some? && !SqlBlank(now.appliedAt.value)))
  }

  predicate BatchTriggersPass(db: Db, columns: set<Column>, was: Batch, now: Batch) {
    && (StatusCol in columns ==>
          && StatusMayMove(was.status, now.status)
          && (!Open(now.status) ==>
                was.settlementClaim.Some? && now.settlementClaim.None? && AllTerminal(db.checks, was.id)))
    && (AggregateCol in columns || StartedCol in columns || SettlementCol in columns || SettledCol in columns
        ==> Open(was.status))
    && (EffectsCol in columns || AppliedCol in columns ==> EffectsMayMove(was, now))
    && (RequestedCol in columns ==>
          && was.requestedAt.None? && now.requestedAt.Some? && !SqlBlank(now.requestedAt.value)
          && was.status == BatchSucceeded && was.settledAt.Some? && was.appliedAt.None?)
    && (BoundCol in columns ==>
          && was.boundAt.None? && was.requestedAt.Some?
          && now.boundAt.Some? && !SqlBlank(now.boundAt.value)
          && now.appliedAt.Some? && !SqlBlank(now.appliedAt.value))
  }

  predicate CheckMayMove(kind: CheckKind, was: CheckStatus, now: CheckStatus) {
    || was == now
    || (was == Queued && (now == Running || now == Failed))
    || (was == Running && Terminal(now))
    || (was == Running && now == Queued && kind != Vlm)
  }

  predicate CheckTriggersPass(db: Db, was: Check, now: Check) {
    && CheckMayMove(was.kind, was.status, now.status)
    && !Terminal(was.status)
    && (now.evaluator.Some? ==> Evaluator(now.evaluator.value, now.session, now.id) in db.evaluators)
  }
}
