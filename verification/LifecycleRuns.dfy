/**
  What holds over whole runs: events that happen once, claims that only their
  holder can use, rows that never change again, and attempts without a gap.
*/
module LifecycleRuns {
  import opened Text
  import opened ValidationRows
  import opened SqlSteps
  import opened Lifecycle

  // ----- how one row moves ----------------------------------------------------

  /** The edges of the lifecycle: how a successful row command changes the row it names. */
  predicate Moves(cmd: Command, was: Batch, now: Batch)
    requires RowCommand(cmd)
  {
    match cmd
    case ClaimSettlement(_, _, token) =>
      was.settledAt.None? && was.settlementClaim.None? && now == was.(settlementClaim := Some(token))
    case Settle(_, _, token, status, aggregate, at) =>
      && was.settledAt.None? && was.settlementClaim == Some(token) && !Open(status)
      && now == was.(status := status, aggregate := aggregate, settlementClaim := None, settledAt := Some(at))
    case ReleaseSettlement(_, _, token) =>
      was.settledAt.None? && was.settlementClaim == Some(token) && now == was.(settlementClaim := None)
    case ClaimEffects(_, _, token) =>
      && was.settledAt.Some? && was.appliedAt.None? && was.effectsClaim.None?
      && now == was.(effectsClaim := Some(token))
    case ReleaseEffects(_, _, token) =>
      was.effectsClaim == Some(token) && now == was.(effectsClaim := None)
    case MarkApplied(_, _, token, at) =>
      && was.effectsClaim == Some(token) && was.appliedAt.None?
      && now == was.(effectsClaim := None, appliedAt := Some(at))
    case RequestRefinement(_, _, token, at) =>
      && was.effectsClaim == Some(token) && was.requestedAt.None?
      && now == was.(requestedAt := Some(at))
    case BindRefinement(_, _, token, at) =>
      && was.effectsClaim == Some(token) && was.requestedAt.Some? && was.boundAt.None? && was.appliedAt.None?
      && now == was.(boundAt := Some(at), effectsClaim := None, appliedAt := Some(at))
    case _ => false
  }

  /** A check that starts moves its queued batch to running. */
  predicate Starts(was: Batch, now: Batch) {
    was.status == BatchQueued && now == was.(status := BatchRunning, startedAt := now.startedAt)
  }

  lemma SettlementMoves(db: Db, cmd: Command)
    requires cmd.ClaimSettlement? || cmd.Settle? || cmd.ReleaseSettlement?
    ensures Step(db, cmd).1.Got? ==>
              && cmd.id in db.batches
              && Moves(cmd, db.batches[cmd.id], Step(db, cmd).1.row)
              && Step(db, cmd).0 == db.(batches := db.batches[cmd.id := Step(db, cmd).1.row])
    ensures !Step(db, cmd).1.Got? ==> Step(db, cmd).0 == db
  {
  }

  lemma EffectsMoves(db: Db, cmd: Command)
    requires RowCommand(cmd) && !cmd.ClaimSettlement? && !cmd.Settle? && !cmd.ReleaseSettlement?
    ensures Step(db, cmd).1.Got? ==>
              && cmd.id in db.batches
              && Moves(cmd, db.batches[cmd.id], Step(db, cmd).1.row)
              && Step(db, cmd).0 == db.(batches := db.batches[cmd.id := Step(db, cmd).1.row])
    ensures !Step(db, cmd).1.Got? ==> Step(db, cmd).0 == db
  {
  }

  lemma RowCommandMoves(db: Db, cmd: Command)
    requires RowCommand(cmd)
    ensures Step(db, cmd).1.Got? ==>
              && cmd.id in db.batches
              && Moves(cmd, db.batches[cmd.id], Step(db, cmd).1.row)
              && Step(db, cmd).0 == db.(batches := db.batches[cmd.id := Step(db, cmd).1.row])
    ensures !Step(db, cmd).1.Got? ==> Step(db, cmd).0 == db
  {
    if cmd.ClaimSettlement? || cmd.Settle? || cmd.ReleaseSettlement? {
      SettlementMoves(db, cmd);
    } else {
      EffectsMoves(db, cmd);
    }
  }

  /** Every other command leaves the row alone, except that a starting check may start its batch. */
  lemma OtherCommandMoves(db: Db, cmd: Command, id: Id)
    requires !RowCommand(cmd) && id in db.batches
    ensures id in Step(db, cmd).0.batches && !Step(db, cmd).1.Got?
    ensures Step(db, cmd).0.batches[id] == db.batches[id]
            || (cmd.UpdateCheck? && Starts(db.batches[id], Step(db, cmd).0.batches[id]))
  {
  }

  /** Only a create command brings a new row, in the pristine state. */
  lemma NewRowIsPristine(db: Db, cmd: Command, id: Id)
    requires id !in db.batches
    ensures id in Step(db, cmd).0.batches ==>
              && cmd.CreateBatch? && Step(db, cmd).1.Created? && PristineBatch(Step(db, cmd).0.batches[id])
              && Step(db, cmd).0.batches[id].run == cmd.batch.run
              && Step(db, cmd).0.batches[id].revision == cmd.batch.revision
  {
    if RowCommand(cmd) {
      RowCommandMoves(db, cmd);
    }
  }

  // ----- exactly once ---------------------------------------------------------

  /** The three things that must happen at most once to a batch. */
  datatype Event = Settled | Applied | RefinementRequested

  predicate Causes(cmd: Command, id: Id, event: Event) {
    match event
    case Settled => cmd.Settle? && cmd.id == id
    case Applied => (cmd.MarkApplied? || cmd.BindRefinement?) && cmd.id == id
    case RefinementRequested => cmd.RequestRefinement? && cmd.id == id
  }

  predicate Happened(db: Db, id: Id, event: Event) {
    && id in db.batches
    && match event
       case Settled => db.batches[id].settledAt.Some?
       case Applied => db.batches[id].appliedAt.Some?
       case RefinementRequested => db.batches[id].requestedAt.Some?
  }

  /** The number of successful steps of a run that cause the event. */
  ghost function Times(db: Db, cmds: seq<Command>, id: Id, event: Event): nat
    decreases cmds
  {
    if cmds == [] then 0
    else
      (if Causes(cmds[0], id, event) && Step(db, cmds[0]).1.Got? then 1 else 0)
      + Times(Step(db, cmds[0]).0, cmds[1..], id, event)
  }

  function One(happened: bool): nat { if happened then 1 else 0 }

  /** The row of a batch before a step, when the step does not insert it. */
  lemma RowIsOk(db: Db, id: Id)
    requires Inv(db) && id in db.batches
    ensures db.batches[id].id == id && BatchOk(db.batches[id])
  {
  }

  lemma StepCausesOnce(db: Db, cmd: Command, id: Id, event: Event)
    requires Inv(db)
    ensures One(Happened(Step(db, cmd).0, id, event)) ==
            One(Happened(db, id, event)) + One(Causes(cmd, id, event) && Step(db, cmd).1.Got?)
  {
    hide SqlSteps.Step, Inv;
    if id in db.batches {
      RowIsOk(db, id);
      StoredStepCausesOnce(db, cmd, id, event);
    } else {
      NewRowIsPristine(db, cmd, id);
      if RowCommand(cmd) {
        RowCommandMoves(db, cmd);
      }
    }
  }

  lemma StoredStepCausesOnce(db: Db, cmd: Command, id: Id, event: Event)
    requires id in db.batches && db.batches[id].id == id && BatchOk(db.batches[id])
    ensures One(Happened(Step(db, cmd).0, id, event)) ==
            One(Happened(db, id, event)) + One(Causes(cmd, id, event) && Step(db, cmd).1.Got?)
  {
    hide SqlSteps.Step, BatchRowOk;
    if RowCommand(cmd) {
      RowCommandMoves(db, cmd);
    } else {
      OtherCommandMoves(db, cmd, id);
    }
  }

  lemma {:induction false} RunCausesOnce(db: Db, cmds: seq<Command>, id: Id, event: Event)
    requires Inv(db)
    ensures One(Happened(Exec(db, cmds), id, event)) == One(Happened(db, id, event)) + Times(db, cmds, id, event)
    decreases cmds
  {
    if cmds != [] {
      StepCausesOnce(db, cmds[0], id, event);
      StepKeepsInv(db, cmds[0]);
      RunCausesOnce(Step(db, cmds[0]).0, cmds[1..], id, event);
    }
  }

  /** Over any run from the empty database a batch is settled at most once, applied or bound at most
      once, and asked for refinement at most once; the row says whether it happened. */
  lemma ExactlyOnce(cmds: seq<Command>, id: Id, event: Event)
    ensures Times(EMPTY, cmds, id, event) == One(Happened(Exec(EMPTY, cmds), id, event))
  {
    RunCausesOnce(EMPTY, cmds, id, event);
  }

  // ----- claims ---------------------------------------------------------------

  datatype ClaimKind = SettlementClaim | EffectsClaim

  function HeldToken(db: Db, id: Id, kind: ClaimKind): Option<string> {
    if id !in db.batches then None
    else match kind
      case SettlementClaim => db.batches[id].settlementClaim
      case EffectsClaim => db.batches[id].effectsClaim
  }

  /** The command claims the batch with this token. */
  predicate Claims(cmd: Command, id: Id, kind: ClaimKind, token: string) {
    match kind
    case SettlementClaim => cmd.ClaimSettlement? && cmd.id == id && cmd.token == token
    case EffectsClaim => cmd.ClaimEffects? && cmd.id == id && cmd.token == token
  }

  /** The command acts on the batch as the holder of this token. */
  predicate Uses(cmd: Command, id: Id, kind: ClaimKind, token: string) {
    match kind
    case SettlementClaim => (cmd.Settle? || cmd.ReleaseSettlement?) && cmd.id == id && cmd.token == token
    case EffectsClaim =>
      && (cmd.MarkApplied? || cmd.BindRefinement? || cmd.RequestRefinement? || cmd.ReleaseEffects?)
      && cmd.id == id && cmd.token == token
  }

  lemma OnlyTheHolderActs(db: Db, cmd: Command, id: Id, kind: ClaimKind, token: string)
    requires Uses(cmd, id, kind, token) && Step(db, cmd).1.Got?
    ensures HeldToken(db, id, kind) == Some(token)
  {
    RowCommandMoves(db, cmd);
    hide SqlSteps.Step;
  }

  lemma TokenAppearsOnlyByClaim(db: Db, cmd: Command, id: Id, kind: ClaimKind, token: string)
    requires HeldToken(db, id, kind) != Some(token)
    requires HeldToken(Step(db, cmd).0, id, kind) == Some(token)
    ensures Claims(cmd, id, kind, token)
  {
    if RowCommand(cmd) {
      RowCommandMoves(db, cmd);
    } else if id in db.batches {
      OtherCommandMoves(db, cmd, id);
    } else {
      NewRowIsPristine(db, cmd, id);
    }
    hide SqlSteps.Step;
  }

  predicate NeverClaimed(cmds: seq<Command>, id: Id, kind: ClaimKind, token: string) {
    forall i :: 0 <= i < |cmds| ==> !Claims(cmds[i], id, kind, token)
  }

  lemma {:induction false} TokenStaysGone(db: Db, cmds: seq<Command>, id: Id, kind: ClaimKind, token: string)
    requires HeldToken(db, id, kind) != Some(token)
    requires NeverClaimed(cmds, id, kind, token)
    ensures HeldToken(Exec(db, cmds), id, kind) != Some(token)
    decreases cmds
  {
    if cmds != [] {
      var after := Step(db, cmds[0]).0;
      if HeldToken(after, id, kind) == Some(token) {
        TokenAppearsOnlyByClaim(db, cmds[0], id, kind, token);
        assert false;
      }
      assert NeverClaimed(cmds[1..], id, kind, token) by {
        forall i | 0 <= i < |cmds[1..]| ensures !Claims(cmds[1..][i], id, kind, token) {
          assert cmds[1..][i] == cmds[i + 1];
        }
      }
      TokenStaysGone(after, cmds[1..], id, kind, token);
    }
  }

  /** Once a claim is gone, whoever held its token can no longer settle, release, request, bind or mark,
      whatever runs in between, as long as nobody claims the batch again with the very same token. */
  lemma StaleClaimantIsRefused(db: Db, cmds: seq<Command>, cmd: Command, id: Id, kind: ClaimKind, token: string)
    requires HeldToken(db, id, kind) != Some(token)
    requires NeverClaimed(cmds, id, kind, token) && Uses(cmd, id, kind, token)
    ensures !Step(Exec(db, cmds), cmd).1.Got?
  {
    TokenStaysGone(db, cmds, id, kind, token);
    if Step(Exec(db, cmds), cmd).1.Got? {
      OnlyTheHolderActs(Exec(db, cmds), cmd, id, kind, token);
      assert false;
    }
  }

  /** Freshness is needed: a settlement token is a millisecond timestamp, and a second claim made with the
      same one lets the claimant that was released settle in the place of the new holder. */
  lemma ReusedTokenRevivesStaleClaimant(db: Db, id: Id, token: string, at: string)
    requires Inv(db) && id in db.batches && !Blank(token) && !Blank(at)
    requires Open(db.batches[id].status) && db.batches[id].settlementClaim.None? && AllTerminal(db.checks, id)
    ensures var session := db.batches[id].session;
            var released := Exec(db, [ClaimSettlement(session, id, token), ReleaseSettlement(session, id, token)]);
            var stale := Command.Settle(session, id, token, BatchFailed, None, at);
            && HeldToken(released, id, SettlementClaim) == None
            && Step(Exec(released, [ClaimSettlement(session, id, token)]), stale).1.Got?
  {
    var session := db.batches[id].session;
    var claim, release := ClaimSettlement(session, id, token), ReleaseSettlement(session, id, token);
    var claimed := ClaimThenRelease(db, id, token);
    assert Exec(db, [claim, release]) == db by {
      assert [claim, release][1..] == [release];
      assert Exec(claimed, [release]) == Exec(db, []);
    }
    assert Exec(db, [claim]) == Exec(claimed, []);
    ClaimedMayFail(claimed, id, token, at);
  }

  lemma ClaimThenRelease(db: Db, id: Id, token: string) returns (claimed: Db)
    requires id in db.batches && db.batches[id].id == id && BatchOk(db.batches[id]) && !Blank(token)
    requires Open(db.batches[id].status) && db.batches[id].settlementClaim.None? && AllTerminal(db.checks, id)
    ensures claimed == db.(batches := db.batches[id := db.batches[id].(settlementClaim := Some(token))])
    ensures Step(db, ClaimSettlement(db.batches[id].session, id, token)).0 == claimed
    ensures Step(claimed, ReleaseSettlement(db.batches[id].session, id, token)).0 == db
  {
    claimed := db.(batches := db.batches[id := db.batches[id].(settlementClaim := Some(token))]);
    assert claimed.batches[id := db.batches[id]] == db.batches;
  }

  /** The holder of a settlement claim can always settle the batch as failed. */
  lemma ClaimedMayFail(db: Db, id: Id, token: string, at: string)
    requires id in db.batches && db.batches[id].id == id && BatchOk(db.batches[id])
    requires !Blank(token) && !Blank(at) && db.batches[id].settlementClaim == Some(token)
    requires AllTerminal(db.checks, id)
    ensures Step(db, Command.Settle(db.batches[id].session, id, token, BatchFailed, None, at)).1.Got?
  {
  }

  // ----- what never changes again ---------------------------------------------

  /** A batch row never disappears and never changes its identity. */
  ghost predicate Persists(was: Db, now: Db, id: Id) {
    id in was.batches ==> id in now.batches && SameIdentity(was.batches[id], now.batches[id])
  }

  /** The verdict of a settled batch and the row of an applied batch are final. */
  ghost predicate VerdictKept(was: Db, now: Db, id: Id) {
    id in was.batches && id in now.batches ==>
      && (was.batches[id].settledAt.Some? ==>
            && now.batches[id].status == was.batches[id].status
            && now.batches[id].aggregate == was.batches[id].aggregate
            && now.batches[id].startedAt == was.batches[id].startedAt
            && now.batches[id].settledAt == was.batches[id].settledAt)
      && (was.batches[id].appliedAt.Some? ==> now.batches[id] == was.batches[id])
  }

  lemma StepKeepsVerdict(db: Db, cmd: Command, id: Id)
    requires Inv(db)
    ensures Persists(db, Step(db, cmd).0, id) && VerdictKept(db, Step(db, cmd).0, id)
  {
    hide SqlSteps.Step, Inv;
    if id in db.batches {
      RowIsOk(db, id);
      if RowCommand(cmd) {
        RowCommandMoves(db, cmd);
      } else {
        OtherCommandMoves(db, cmd, id);
      }
    }
  }

  /** Whatever runs later, a settled batch keeps its verdict and an applied batch keeps its whole row. */
  lemma {:induction false} VerdictIsFinal(db: Db, cmds: seq<Command>, id: Id)
    requires Inv(db)
    ensures Persists(db, Exec(db, cmds), id) && VerdictKept(db, Exec(db, cmds), id)
    decreases cmds
  {
    if cmds != [] {
      var mid := Step(db, cmds[0]).0;
      StepKeepsVerdict(db, cmds[0], id);
      StepKeepsInv(db, cmds[0]);
      hide SqlSteps.Step;
      VerdictIsFinal(mid, cmds[1..], id);
    }
  }

  /** A check that has finished is never written again. */
  lemma StepKeepsFinishedCheck(db: Db, cmd: Command, c: Id)
    requires c in db.checks && Terminal(db.checks[c].status)
    ensures c in Step(db, cmd).0.checks && Step(db, cmd).0.checks[c] == db.checks[c]
  {
    if RowCommand(cmd) {
      RowCommandMoves(db, cmd);
    }
  }

  /** Whatever runs later, a finished check keeps its whole row. */
  lemma {:induction false} FinishedCheckIsFinal(db: Db, cmds: seq<Command>, c: Id)
    requires c in db.checks && Terminal(db.checks[c].status)
    ensures c in Exec(db, cmds).checks && Exec(db, cmds).checks[c] == db.checks[c]
    decreases cmds
  {
    hide SqlSteps.Step;
    if cmds != [] {
      StepKeepsFinishedCheck(db, cmds[0], c);
      FinishedCheckIsFinal(Step(db, cmds[0]).0, cmds[1..], c);
    }
  }

  // ----- attempts -------------------------------------------------------------

  lemma AttemptHasPredecessor(batches: map<Id, Batch>, run: Id, revision: Id, top: nat)
    requires AttemptsOk(batches) && top in Attempts(batches, run, revision) && top > 1
    ensures top - 1 in Attempts(batches, run, revision)
  {
    hide UniqueAttempts;
    var id :| id in batches && batches[id].run == run && batches[id].revision == revision && batches[id].attempt == top;
    assert HasPredecessor(batches, batches[id]);
  }

  lemma {:induction false} AttemptsGoDownToOne(batches: map<Id, Batch>, run: Id, revision: Id, top: nat, k: nat)
    requires AttemptsOk(batches) && top in Attempts(batches, run, revision) && 1 <= k <= top
    ensures k in Attempts(batches, run, revision)
    decreases top
  {
    hide AttemptsOk, Attempts;
    if k < top {
      AttemptHasPredecessor(batches, run, revision, top);
      AttemptsGoDownToOne(batches, run, revision, top - 1, k);
    }
  }

  /** The attempts of a (run, revision) are exactly 1..n, each taken by one batch. */
  lemma ReachableAttempts(cmds: seq<Command>, run: Id, revision: Id)
    ensures var batches := Exec(EMPTY, cmds).batches;
            var n := MaxOf(Attempts(batches, run, revision));
            && (forall k: nat :: k in Attempts(batches, run, revision) <==> 1 <= k <= n)
            && forall a, b | a in batches && b in batches && SamePair(batches[a], batches[b]) ::
                 batches[a].attempt == batches[b].attempt ==> a == b
  {
    ReachableInv(cmds);
    var batches := Exec(EMPTY, cmds).batches;
    var attempts := Attempts(batches, run, revision);
    var n := MaxOf(attempts);
    forall id | id in batches ensures batches[id].attempt >= 1 {
      assert BatchOk(batches[id]);
    }
    forall k: nat | 1 <= k <= n ensures k in attempts {
      AttemptsGoDownToOne(batches, run, revision, n, k);
    }
    forall k | k in attempts ensures 1 <= k <= n {
      var id :| id in batches && batches[id].attempt == k;
    }
  }

  /** Every stored check carries its batch id, its own id and the attempt of its batch. */
  lemma ReachableContracts(cmds: seq<Command>, c: Id)
    requires c in Exec(EMPTY, cmds).checks
    ensures var db := Exec(EMPTY, cmds);
            && db.checks[c].batch in db.batches
            && HasIdentity(db.checks[c].contract, db.checks[c].batch, c, db.batches[db.checks[c].batch].attempt)
  {
    ReachableInv(cmds);
    var db := Exec(EMPTY, cmds);
    assert CheckOk(db, db.checks[c]);
  }

  // ----- the latest-batch verdict ---------------------------------------------

  lemma ClaimBlocksNewAttempts(db: Db, batch: Batch, checks: seq<Check>, id: Id)
    requires Inv(db) && id in db.batches && db.batches[id].effectsClaim.Some?
    requires batch.run == db.batches[id].run && batch.revision == db.batches[id].revision
    ensures SqlCreate(db, batch, checks) == (db, Refused)
  {
    assert BatchOk(db.batches[id]);
    assert EffectsOwned(db.batches, batch.run, batch.revision);
  }

  ghost predicate Newer(batches: map<Id, Batch>, b: Batch) {
    exists o :: o in batches && batches[o].run == b.run && batches[o].revision == b.revision
                && batches[o].attempt > b.attempt
  }

  lemma NewerIsKept(db: Db, cmd: Command, id: Id)
    requires Inv(db) && id in db.batches && db.batches[id].effectsClaim.Some?
    ensures Newer(Step(db, cmd).0.batches, db.batches[id]) == Newer(db.batches, db.batches[id])
  {
    var b, after := db.batches[id], Step(db, cmd).0.batches;
    if cmd.CreateBatch? && cmd.batch.run == b.run && cmd.batch.revision == b.revision {
      ClaimBlocksNewAttempts(db, cmd.batch, cmd.checks, id);
    } else {
      forall o | o in db.batches ensures o in after && SameIdentity(db.batches[o], after[o]) {
        StepKeepsVerdict(db, cmd, o);
      }
      forall o | o in after && after[o].run == b.run && after[o].revision == b.revision
        ensures o in db.batches
      {
        if o !in db.batches {
          NewRowIsPristine(db, cmd, o);
        }
      }
      hide SqlSteps.Step, Inv;
    }
  }

  lemma StepKeepsLatest(db: Db, cmd: Command, session: Id, id: Id)
    requires Inv(db) && id in db.batches && db.batches[id].effectsClaim.Some?
    ensures id in Step(db, cmd).0.batches
    ensures IsLatest(Step(db, cmd).0, session, id) == IsLatest(db, session, id)
  {
    StepKeepsVerdict(db, cmd, id);
    NewerIsKept(db, cmd, id);
    OutputRevisionIsLocked(db, cmd, id);
    StepKeepsInv(db, cmd);
    hide SqlSteps.Step;
    var after := Step(db, cmd).0;
    assert IsLatest(db, session, id) <==>
      db.batches[id].session == session
      && db.runs[db.batches[id].run].outputRevision == Some(db.batches[id].revision)
      && !Newer(db.batches, db.batches[id]);
    assert Newer(after.batches, after.batches[id]) == Newer(after.batches, db.batches[id]);
  }

  lemma OutputRevisionIsLocked(db: Db, cmd: Command, id: Id)
    requires Inv(db) && id in db.batches && db.batches[id].effectsClaim.Some?
    ensures var run := db.batches[id].run;
            && run in db.runs && run in Step(db, cmd).0.runs
            && Step(db, cmd).0.runs[run].session == db.runs[run].session
            && Step(db, cmd).0.runs[run].outputRevision == db.runs[run].outputRevision
  {
    hide BatchesOk, ChecksOk, AttemptsOk;
    RowIsOk(db, id);
    assert RevisionLocked(db.batches, db.batches[id].run, db.batches[id].session);
    if RowCommand(cmd) {
      RowCommandMoves(db, cmd);
    } else if cmd.CreateBatch? || cmd.UpdateCheck? {
      GraphCommandKeepsRuns(db, cmd);
    }
  }

  lemma GraphCommandKeepsRuns(db: Db, cmd: Command)
    requires cmd.CreateBatch? || cmd.UpdateCheck?
    ensures Step(db, cmd).0.runs == db.runs
  {
  }

  /** The claim is held, possibly by different tokens, before each of the commands. */
  ghost predicate HeldThroughout(db: Db, cmds: seq<Command>, id: Id)
    decreases cmds
  {
    && id in db.batches && db.batches[id].effectsClaim.Some?
    && (cmds == [] || HeldThroughout(Step(db, cmds[0]).0, cmds[1..], id))
  }

  /** While the effects of a batch are claimed, the answer to "is it the latest" cannot change. */
  lemma {:induction false} LatestIsStableForTheHolder(db: Db, cmds: seq<Command>, session: Id, id: Id)
    requires Inv(db) && HeldThroughout(db, cmds, id)
    ensures id in Exec(db, cmds).batches
    ensures IsLatest(Exec(db, cmds), session, id) == IsLatest(db, session, id)
    decreases cmds
  {
    if cmds != [] {
      StepKeepsLatest(db, cmds[0], session, id);
      StepKeepsInv(db, cmds[0]);
      hide IsLatest;
      LatestIsStableForTheHolder(Step(db, cmds[0]).0, cmds[1..], session, id);
    }
  }
}
