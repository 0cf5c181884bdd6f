/**
  The in-memory repository simulates the SQL one: where the two agree, where
  each refuses what the other accepts, and why the shorter guards are enough.
*/
module Simulation {
  import opened Text
  import opened ValidationRows
  import opened SqlSteps
  import opened MemorySteps
  import opened Lifecycle
  import LifecycleRuns

  /** Both repositories hold the same batches and checks. */
  predicate Related(db: Db, m: Store) {
    m.batches == db.batches && m.checks == db.checks
  }

  /** A refusal leaves the state alone in both; anything else is a success. */
  predicate Accepted(reply: Reply) { reply != Refused && reply != NotClaimed }

  // ----- well-formed arguments ------------------------------------------------

  /** The service derives the new check from the stored one and moves its status forward. */
  ghost predicate CheckChangeOk(db: Db, check: Check, expected: CheckStatus) {
    && CheckRowOk(check) && !Terminal(expected) && CheckMayMove(check.kind, expected, check.status)
    && (check.id in db.checks ==>
          && SameCheckIdentity(db.checks[check.id], check) && db.checks[check.id].createdAt == check.createdAt)
  }

  /** Arguments as the session service passes them. */
  ghost predicate WellFormed(db: Db, cmd: Command) {
    match cmd
    case CreateBatch(batch, checks) =>
      && CreateArgumentsOk(batch, checks) && !SqlBlank(batch.createdAt)
      && forall i :: 0 <= i < 3 ==>
           checks[i].batch == batch.id && checks[i].session == batch.session && !SqlBlank(checks[i].createdAt)
    case UpdateCheck(check, expected) => CheckChangeOk(db, check, expected)
    case ClaimSettlement(_, _, token) => !Blank(token)
    case Settle(_, _, token, status, aggregate, at) => SettleArgumentsOk(token, status, aggregate, at)
    case ReleaseSettlement(_, _, token) => !Blank(token)
    case ClaimEffects(_, _, token) => !Blank(token)
    case ReleaseEffects(_, _, token) => !Blank(token)
    case MarkApplied(_, _, token, at) => !Blank(token) && !Blank(at)
    case RequestRefinement(_, _, _, at) => !Blank(at)
    case BindRefinement(_, _, _, at) => !Blank(at)
    case _ => true
  }

  // ----- the only differences -------------------------------------------------

  /** What SQL asks beyond the in-memory guards: a verdict `succeeded` needs a started batch, a bind needs
      a durable external turn, a create needs its graph rows, a bound check needs its thread. */
  predicate SqlExtra(db: Db, cmd: Command) {
    match cmd
    case CreateBatch(batch, _) => BatchGraphOk(db, batch)
    case UpdateCheck(check, _) =>
      check.evaluator.Some? ==> Evaluator(check.evaluator.value, check.session, check.id) in db.evaluators
    case Settle(_, id, _, status, _, _) => status == BatchSucceeded && id in db.batches ==> db.batches[id].startedAt.Some?
    case BindRefinement(_, id, _, _) => id in db.batches ==> TurnBound(db.runs, db.batches[id])
    case _ => true
  }

  /** What the in-memory repository asks beyond SQL: `passed` is the boolean false, not the number zero. */
  predicate MemoryExtra(db: Db, cmd: Command) {
    cmd.RequestRefinement? && cmd.id in db.batches && RejectedInSql(db.batches[cmd.id].aggregate)
    ==> RejectedInRust(db.batches[cmd.id].aggregate)
  }

  ghost predicate Agree(db: Db, m: Store, cmd: Command) {
    && MemStep(m, cmd).1 == Step(db, cmd).1
    && Related(Step(db, cmd).0, MemStep(m, cmd).0)
  }

  /** Each accepts exactly when the other does and its own extra guard holds; together they move in step. */
  ghost predicate Simulates(db: Db, m: Store, cmd: Command) {
    && (SqlExtra(db, cmd) && MemoryExtra(db, cmd) ==> Agree(db, m, cmd))
    && (!SqlExtra(db, cmd) ==> !Accepted(Step(db, cmd).1))
    && (!MemoryExtra(db, cmd) ==> !Accepted(MemStep(m, cmd).1))
  }

  // ----- per group of commands ------------------------------------------------

  lemma TerminalCount(checks: map<Id, Check>, id: Id)
    requires OwnsTrio(checks, id)
    ensures |TerminalChecksOf(checks, id)| == 3 <==> AllTerminal(checks, id)
  {
    TrioFacts(checks, id, Structural);
    var all, terminal := ChecksOf(checks, id), TerminalChecksOf(checks, id);
    assert terminal <= all;
    if terminal != all {
      SubsetIsSmaller(terminal, all);
    }
  }

  lemma SubsetIsSmaller(a: set<Id>, b: set<Id>)
    requires a < b
    ensures |a| < |b|
  {
    var x :| x in b && x !in a;
    assert a <= b - {x};
    SubsetIsNotLarger(a, b - {x});
  }

  lemma {:induction false} SubsetIsNotLarger(a: set<Id>, b: set<Id>)
    requires a <= b
    ensures |a| <= |b|
    decreases a
  {
    if a != {} {
      var x :| x in a;
      SubsetIsNotLarger(a - {x}, b - {x});
    }
  }

  lemma ClaimSettlementSimulates(db: Db, m: Store, cmd: Command)
    requires cmd.ClaimSettlement? && Related(db, m) && WellFormed(db, cmd) && cmd.id in db.batches
    requires db.batches[cmd.id].id == cmd.id && BatchOk(db.batches[cmd.id])
    requires |TerminalChecksOf(db.checks, cmd.id)| == 3 <==> AllTerminal(db.checks, cmd.id)
    ensures Simulates(db, m, cmd)
  {
    hide AllTerminal, TerminalChecksOf;
  }

  lemma SettleSimulates(db: Db, m: Store, cmd: Command)
    requires cmd.Settle? && Related(db, m) && WellFormed(db, cmd) && cmd.id in db.batches
    requires db.batches[cmd.id].id == cmd.id && BatchOk(db.batches[cmd.id])
    requires db.batches[cmd.id].settlementClaim.Some? ==> AllTerminal(db.checks, cmd.id)
    ensures Simulates(db, m, cmd)
  {
    hide AllTerminal, Blank;
  }

  lemma ReleaseSettlementSimulates(db: Db, m: Store, cmd: Command)
    requires cmd.ReleaseSettlement? && Related(db, m) && WellFormed(db, cmd) && cmd.id in db.batches
    requires db.batches[cmd.id].id == cmd.id && BatchOk(db.batches[cmd.id])
    ensures Simulates(db, m, cmd)
  {
    hide AllTerminal, Blank;
  }

  lemma SettlementSimulates(db: Db, m: Store, cmd: Command)
    requires cmd.ClaimSettlement? || cmd.Settle? || cmd.ReleaseSettlement?
    requires Related(db, m) && WellFormed(db, cmd) && cmd.id in db.batches
    requires db.batches[cmd.id].id == cmd.id && BatchOk(db.batches[cmd.id]) && OwnsTrio(db.checks, cmd.id)
    requires db.batches[cmd.id].settlementClaim.Some? ==> AllTerminal(db.checks, cmd.id)
    ensures Simulates(db, m, cmd)
  {
    hide Simulates, WellFormed, AllTerminal, OwnsTrio, BatchOk, TerminalChecksOf;
    TerminalCount(db.checks, cmd.id);
    if cmd.ClaimSettlement? {
      ClaimSettlementSimulates(db, m, cmd);
    } else if cmd.Settle? {
      SettleSimulates(db, m, cmd);
    } else {
      ReleaseSettlementSimulates(db, m, cmd);
    }
  }

  lemma ClaimEffectsSimulates(db: Db, m: Store, cmd: Command)
    requires cmd.ClaimEffects?
    requires Related(db, m) && WellFormed(db, cmd) && cmd.id in db.batches
    requires db.batches[cmd.id].id == cmd.id && BatchOk(db.batches[cmd.id])
    ensures Simulates(db, m, cmd)
  {
    NonBlankForSql();
    hide AllTerminal, Blank, SqlBlank;
  }

  lemma ReleaseEffectsSimulates(db: Db, m: Store, cmd: Command)
    requires cmd.ReleaseEffects?
    requires Related(db, m) && WellFormed(db, cmd) && cmd.id in db.batches
    requires db.batches[cmd.id].id == cmd.id && BatchOk(db.batches[cmd.id])
    ensures Simulates(db, m, cmd)
  {
    NonBlankForSql();
    hide AllTerminal, Blank, SqlBlank;
  }

  lemma MarkAppliedSimulates(db: Db, m: Store, cmd: Command)
    requires cmd.MarkApplied?
    requires Related(db, m) && WellFormed(db, cmd) && cmd.id in db.batches
    requires db.batches[cmd.id].id == cmd.id && BatchOk(db.batches[cmd.id])
    ensures Simulates(db, m, cmd)
  {
    NonBlankForSql();
    hide AllTerminal, Blank, SqlBlank;
  }

  lemma RequestRefinementSimulates(db: Db, m: Store, cmd: Command)
    requires cmd.RequestRefinement?
    requires Related(db, m) && WellFormed(db, cmd) && cmd.id in db.batches
    requires db.batches[cmd.id].id == cmd.id && BatchOk(db.batches[cmd.id])
    ensures Simulates(db, m, cmd)
  {
    NonBlankForSql();
    hide AllTerminal, Blank, SqlBlank;
  }

  lemma BindRefinementSimulates(db: Db, m: Store, cmd: Command)
    requires cmd.BindRefinement?
    requires Related(db, m) && WellFormed(db, cmd) && cmd.id in db.batches
    requires db.batches[cmd.id].id == cmd.id && BatchOk(db.batches[cmd.id])
    ensures Simulates(db, m, cmd)
  {
    NonBlankForSql();
    hide AllTerminal, Blank, SqlBlank;
  }

  /** Rust trims more than SQLite, so a token that Rust accepts passes the triggers. */
  lemma NonBlankForSql()
    ensures forall text: string :: !Blank(text) ==> !SqlBlank(text)
  {
    assert ' ' in WHITE_SPACE;
  }

  lemma MissingRowSimulates(db: Db, m: Store, cmd: Command)
    requires RowCommand(cmd) && Related(db, m) && WellFormed(db, cmd) && cmd.id !in db.batches
    ensures Simulates(db, m, cmd)
  {
  }

  lemma UpdateCheckSimulates(db: Db, m: Store, check: Check, expected: CheckStatus)
    requires Related(db, m) && CheckChangeOk(db, check, expected)
    requires check.id in db.checks ==>
               && check.batch in db.batches && db.batches[check.batch].id == check.batch
               && db.batches[check.batch].session == check.session && BatchOk(db.batches[check.batch])
               && (!Terminal(db.checks[check.id].status) ==> db.batches[check.batch].settlementClaim.None?)
    ensures Simulates(db, m, UpdateCheck(check, expected))
  {
    hide AllTerminal;
  }

  lemma StampedRows(checks: seq<Check>, batch: Id, attempt: nat)
    requires |checks| == 3 && StampAll(checks, batch, attempt).Some?
    ensures var rows := StampAll(checks, batch, attempt).value;
            forall i :: 0 <= i < 3 ==> rows[i] == checks[i].(contract := rows[i].contract)
  {
    hide StampIdentity;
  }

  lemma CreateSimulates(db: Db, m: Store, batch: Batch, checks: seq<Check>)
    requires Related(db, m) && WellFormed(db, CreateBatch(batch, checks))
    requires batch.id !in db.batches ==> ChecksOf(db.checks, batch.id) == {}
    ensures Simulates(db, m, CreateBatch(batch, checks))
  {
    hide StampAll, EffectsOwned, Attempts;
    var attempt := NextAttempt(db.batches, batch.run, batch.revision);
    if StampAll(checks, batch.id, attempt).Some? {
      StampedRows(checks, batch.id, attempt);
      var rows := StampAll(checks, batch.id, attempt).value;
      assert checks[0].id == rows[0].id && checks[1].id == rows[1].id && checks[2].id == rows[2].id;
      assert forall i :: 0 <= i < 3 ==> PristineCheck(checks[i]) && CheckRowOk(rows[i]);
    }
  }

  // ----- the simulation -------------------------------------------------------

  lemma UpdateCheckContext(db: Db, check: Check)
    requires Inv(db) && check.id in db.checks && SameCheckIdentity(db.checks[check.id], check)
    ensures check.batch in db.batches && db.batches[check.batch].id == check.batch
    ensures db.batches[check.batch].session == check.session && BatchOk(db.batches[check.batch])
    ensures !Terminal(db.checks[check.id].status) ==> db.batches[check.batch].settlementClaim.None?
  {
    hide AttemptsOk, RunsOk, OwnsTrio, BatchOk, CheckRowOk, HasIdentity;
    assert CheckOk(db, db.checks[check.id]);
    if !Terminal(db.checks[check.id].status) {
      NonTerminalMeansUnclaimed(db, check.id);
    }
  }

  lemma NoOrphans(db: Db, id: Id)
    requires Inv(db) && id !in db.batches
    ensures ChecksOf(db.checks, id) == {}
  {
    hide BatchesOk, AttemptsOk, RunsOk, CheckRowOk, HasIdentity;
    forall c | c in db.checks ensures db.checks[c].batch != id {
      assert CheckOk(db, db.checks[c]);
    }
  }

  lemma RowContext(db: Db, id: Id)
    requires Inv(db) && id in db.batches
    ensures db.batches[id].id == id && BatchOk(db.batches[id]) && OwnsTrio(db.checks, id)
    ensures db.batches[id].settlementClaim.Some? ==> AllTerminal(db.checks, id)
  {
    hide ChecksOk, AttemptsOk, RunsOk, BatchOk, AllTerminal, OwnsTrio;
  }

  /** On every reachable state and well-formed call, the in-memory repository gives the same reply and the
      same rows as SQL, except where one of the two extra guards fails; then exactly the owner of that
      guard refuses. The guards that the in-memory code omits follow from the lifecycle. */
  lemma StepSimulates(db: Db, m: Store, cmd: Command)
    requires Inv(db) && Related(db, m) && WellFormed(db, cmd)
    requires RowCommand(cmd) || cmd.UpdateCheck? || cmd.CreateBatch?
    ensures Simulates(db, m, cmd)
  {
    hide Inv, Simulates;
    if cmd.CreateBatch? {
      if cmd.batch.id !in db.batches {
        NoOrphans(db, cmd.batch.id);
      }
      CreateSimulates(db, m, cmd.batch, cmd.checks);
    } else if cmd.UpdateCheck? {
      if cmd.check.id in db.checks {
        UpdateCheckContext(db, cmd.check);
      }
      UpdateCheckSimulates(db, m, cmd.check, cmd.expected);
    } else if cmd.id !in db.batches {
      MissingRowSimulates(db, m, cmd);
    } else {
      RowContext(db, cmd.id);
      if cmd.ClaimSettlement? || cmd.Settle? || cmd.ReleaseSettlement? {
        SettlementSimulates(db, m, cmd);
      } else if cmd.RequestRefinement? {
        RequestRefinementSimulates(db, m, cmd);
      } else if cmd.BindRefinement? {
        BindRefinementSimulates(db, m, cmd);
      } else if cmd.ClaimEffects? {
        ClaimEffectsSimulates(db, m, cmd);
      } else if cmd.ReleaseEffects? {
        ReleaseEffectsSimulates(db, m, cmd);
      } else {
        MarkAppliedSimulates(db, m, cmd);
      }
    }
  }

  ghost function MemExec(m: Store, cmds: seq<Command>): Store
    decreases cmds
  {
    if cmds == [] then m else MemExec(MemStep(m, cmds[0]).0, cmds[1..])
  }

  /** Every step of the run is well formed and meets both extra guards in the state it runs in. */
  ghost predicate PortableRun(db: Db, cmds: seq<Command>)
    decreases cmds
  {
    cmds == []
    || (&& WellFormed(db, cmds[0]) && SqlExtra(db, cmds[0]) && MemoryExtra(db, cmds[0])
        && PortableRun(Step(db, cmds[0]).0, cmds[1..]))
  }

  /** Over a whole portable run the two repositories stay equal. */
  lemma {:induction false} RunSimulates(db: Db, m: Store, cmds: seq<Command>)
    requires Inv(db) && Related(db, m) && PortableRun(db, cmds)
    ensures Related(Exec(db, cmds), MemExec(m, cmds))
    decreases cmds
  {
    hide Inv, Step, MemStep;
    if cmds != [] {
      var cmd := cmds[0];
      StepKeepsInv(db, cmd);
      if RowCommand(cmd) || cmd.UpdateCheck? || cmd.CreateBatch? {
        StepSimulates(db, m, cmd);
      } else {
        OtherTablesSimulate(db, m, cmd);
      }
      RunSimulates(Step(db, cmd).0, MemStep(m, cmd).0, cmds[1..]);
    }
  }

  lemma OrphansCountNothing(db: Db, id: Id)
    requires Inv(db) && id !in db.batches
    ensures |TerminalChecksOf(db.checks, id)| == 0
  {
    hide Inv;
    NoOrphans(db, id);
    assert TerminalChecksOf(db.checks, id) <= ChecksOf(db.checks, id);
  }

  /** A settlement claim that counted three terminal checks, and takes the batch lock only after other calls have
      run, does what it would do in one step at that moment: finished checks stay finished. */
  lemma ClaimInTwoSectionsIsAtomic(db: Db, m: Store, cmds: seq<Command>, session: Id, id: Id, token: string)
    requires Inv(db) && Related(db, m) && PortableRun(db, cmds) && |TerminalChecksOf(m.checks, id)| == 3
    ensures var later := MemExec(m, cmds);
            MemClaimUnderBatchLock(later, session, id, token) == MemClaimSettlement(later, session, id, token)
  {
    hide Inv, Step, MemStep, PortableRun, OwnsTrio, MemClaimUnderBatchLock;
    RunSimulates(db, m, cmds);
    var after := Exec(db, cmds);
    if id !in db.batches {
      OrphansCountNothing(db, id);
      assert false;
    }
    RowContext(db, id);
    TerminalCount(db.checks, id);
    LifecycleRuns.VerdictIsFinal(db, cmds, id);
    ExecKeepsInv(db, cmds);
    RowContext(after, id);
    TrioFacts(db.checks, id, Structural);
    TrioFacts(after.checks, id, Structural);
    forall c | c in ChecksOf(db.checks, id) ensures c in TerminalChecksOf(after.checks, id) {
      LifecycleRuns.FinishedCheckIsFinal(db, cmds, c);
    }
    SubsetIsNotLarger(ChecksOf(db.checks, id), TerminalChecksOf(after.checks, id));
    SubsetIsNotLarger(TerminalChecksOf(after.checks, id), ChecksOf(after.checks, id));
  }

  lemma OtherTablesSimulate(db: Db, m: Store, cmd: Command)
    requires Related(db, m) && !RowCommand(cmd) && !cmd.UpdateCheck? && !cmd.CreateBatch?
    ensures Related(Step(db, cmd).0, MemStep(m, cmd).0)
  {
  }

  /** The two answers to "is it the latest" differ exactly when the run has moved to another revision. */
  lemma LatestAgrees(db: Db, m: Store, session: Id, id: Id)
    requires Inv(db) && Related(db, m) && id in db.batches
    ensures IsLatest(db, session, id) <==>
            MemIsLatest(m, session, id)
            && db.runs[db.batches[id].run].outputRevision == Some(db.batches[id].revision)
  {
    hide BatchesOk, ChecksOk, AttemptsOk;
  }
}
