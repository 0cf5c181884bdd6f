/**
  Restart handling (session_service.rs) and the absence of stuck states: what a
  restart leaves behind, and how any batch can still be finished afterwards.
*/
module Recovery {
  import opened Text
  import opened ValidationRows
  import opened SqlSteps
  import opened Lifecycle
  import LifecycleRuns
  import SqlRepository

  // ----- what a restart does --------------------------------------------------

  /** Structural and DFM checks die with the process that ran them; a VLM check runs elsewhere. */
  predicate Interrupted(c: Check) { c.status == Running && c.kind != Vlm }

  /** No check that a restart would queue again is bound to a validation thread. */
  predicate RestartSafe(db: Db) {
    forall c :: c in db.checks && Interrupted(db.checks[c]) ==> db.checks[c].evaluator.None?
  }

  /** No evaluation has the id of a structural or DFM check. */
  predicate DisjointIds(db: Db) {
    forall e :: e in db.evaluations && e.id in db.checks ==> db.checks[e.id].kind == Vlm
  }

  lemma SafeIff(db: Db)
    ensures InterruptedChecks(db.checks) <= db.checks.Keys
    ensures RestartSafe(db) <==> forall c :: c in InterruptedChecks(db.checks) ==> db.checks[c].evaluator.None?
  {
  }

  lemma OnlyVlmChecksAreBound(db: Db, c: Id)
    requires Inv(db) && DisjointIds(db) && c in db.checks && db.checks[c].evaluator.Some?
    ensures db.checks[c].kind == Vlm
  {
    hide BatchesOk, AttemptsOk, RunsOk, CheckRowOk, HasIdentity;
    var check := db.checks[c];
    assert CheckOk(db, check);
    assert OwnerOk(db, Evaluator(check.evaluator.value, check.session, c));
  }

  /** With disjoint identifiers every state of the lifecycle is safe to restart from. */
  lemma DisjointIdsMeanSafe(db: Db)
    requires Inv(db) && DisjointIds(db)
    ensures RestartSafe(db)
  {
    hide Inv, DisjointIds;
    forall c | c in db.checks && db.checks[c].evaluator.Some? ensures db.checks[c].kind == Vlm {
      OnlyVlmChecksAreBound(db, c);
    }
  }

  function Requeued(c: Check): Check { c.(status := Queued, startedAt := None) }

  function InterruptedChecks(checks: map<Id, Check>): set<Id> {
    set c | c in checks && Interrupted(checks[c])
  }

  function RequeueAll(checks: map<Id, Check>, ids: set<Id>): map<Id, Check> {
    map c | c in checks :: if c in ids then Requeued(checks[c]) else checks[c]
  }

  function SettlementClaimed(batches: map<Id, Batch>): set<Id> {
    set b | b in batches && batches[b].settlementClaim.Some?
  }

  function EffectsClaimed(batches: map<Id, Batch>): set<Id> {
    set b | b in batches && batches[b].effectsClaim.Some?
  }

  function DropSettlement(batches: map<Id, Batch>, ids: set<Id>): map<Id, Batch> {
    map b | b in batches :: if b in ids then batches[b].(settlementClaim := None) else batches[b]
  }

  function DropEffects(batches: map<Id, Batch>, ids: set<Id>): map<Id, Batch> {
    map b | b in batches :: if b in ids then batches[b].(effectsClaim := None) else batches[b]
  }

  /** Interrupted checks are queued again and nobody holds a claim; nothing else changes. */
  function Restarted(db: Db): Db {
    db.(checks := map c | c in db.checks :: if Interrupted(db.checks[c]) then Requeued(db.checks[c]) else db.checks[c],
        batches := map b | b in db.batches :: db.batches[b].(settlementClaim := None, effectsClaim := None))
  }

  /** What a restart does to a check: a running structural or DFM check is queued again, as if it had not started;
      every other check is as it was. */
  predicate CheckAfterRestart(was: Check, now: Check) {
    && (was.status == Running && (was.kind == Structural || was.kind == Dfm) ==>
          && now.status == Queued && now.startedAt == None
          && (now.id, now.batch, now.session, now.kind, now.contract) == (was.id, was.batch, was.session, was.kind, was.contract)
          && (now.report, now.passed, now.error) == (was.report, was.passed, was.error)
          && (now.evaluator, now.turn, now.createdAt, now.completedAt)
             == (was.evaluator, was.turn, was.createdAt, was.completedAt))
    && (was.status != Running || was.kind == Vlm ==> now == was)
  }

  predicate ChecksAfterRestart(was: map<Id, Check>, now: map<Id, Check>) {
    now.Keys == was.Keys && forall c :: c in was ==> CheckAfterRestart(was[c], now[c])
  }

  /** A batch has no claim left; all its other columns are as they were. */
  predicate BatchAfterRestart(was: Batch, now: Batch) {
    now.settlementClaim == None && now.effectsClaim == None
    && now.(settlementClaim := was.settlementClaim, effectsClaim := was.effectsClaim) == was
  }

  predicate BatchesAfterRestart(was: map<Id, Batch>, now: map<Id, Batch>) {
    now.Keys == was.Keys && forall b :: b in was ==> BatchAfterRestart(was[b], now[b])
  }

  /** The rows after a restart, column by column. */
  ghost predicate AfterRestart(was: Db, now: Db) {
    && ChecksAfterRestart(was.checks, now.checks) && BatchesAfterRestart(was.batches, now.batches)
    && (now.runs, now.evaluations, now.evaluators, now.artifacts) == (was.runs, was.evaluations, was.evaluators, was.artifacts)
  }

  lemma RequeuedColumns(checks: map<Id, Check>)
    ensures ChecksAfterRestart(checks, RequeueAll(checks, InterruptedChecks(checks)))
  {
  }

  lemma RestartedColumns(db: Db)
    ensures AfterRestart(db, Restarted(db))
  {
    assert Restarted(db).checks == RequeueAll(db.checks, InterruptedChecks(db.checks));
    RequeuedColumns(db.checks);
  }

  /** The columns leave no choice. */
  lemma AfterRestartIsUnique(db: Db, one: Db, other: Db)
    requires AfterRestart(db, one) && AfterRestart(db, other)
    ensures one == other
  {
    assert one.checks.Keys == other.checks.Keys;
    forall c | c in one.checks ensures one.checks[c] == other.checks[c] {
      assert CheckAfterRestart(db.checks[c], one.checks[c]) && CheckAfterRestart(db.checks[c], other.checks[c]);
    }
    forall b | b in one.batches ensures one.batches[b] == other.batches[b] {
      assert BatchAfterRestart(db.batches[b], one.batches[b]) && BatchAfterRestart(db.batches[b], other.batches[b]);
    }
  }

  // ----- the single steps of a restart ----------------------------------------

  function RequeueCommand(c: Check): Command { UpdateCheck(Requeued(c), c.status) }

  lemma RequeueSucceeds(db: Db, c: Id)
    requires Inv(db) && c in db.checks && Interrupted(db.checks[c]) && db.checks[c].evaluator.None?
    ensures SqlUpdateCheck(db, Requeued(db.checks[c]), Running) ==
            (db.(checks := db.checks[c := Requeued(db.checks[c])]), CheckSaved(Requeued(db.checks[c])))
  {
    hide BatchesOk, AttemptsOk, RunsOk;
    assert CheckOk(db, db.checks[c]);
  }

  /** A queued check may not be bound to a thread, and requeueing keeps the binding. */
  lemma RequeueFails(db: Db, c: Check)
    requires Interrupted(c) && c.evaluator.Some?
    ensures SqlUpdateCheck(db, Requeued(c), Running) == (db, Refused)
  {
  }

  lemma ReleaseSettlementSucceeds(db: Db, b: Id)
    requires Inv(db) && b in db.batches && db.batches[b].settlementClaim.Some?
    ensures var row := db.batches[b].(settlementClaim := None);
            SqlReleaseSettlement(db, db.batches[b].session, b, db.batches[b].settlementClaim.value) ==
            (db.(batches := db.batches[b := row]), Got(row))
  {
    hide ChecksOk, AttemptsOk, RunsOk;
    assert BatchOk(db.batches[b]);
  }

  lemma ReleaseEffectsSucceeds(db: Db, b: Id)
    requires Inv(db) && b in db.batches && db.batches[b].effectsClaim.Some?
    ensures var row := db.batches[b].(effectsClaim := None);
            SqlReleaseEffects(db, db.batches[b].session, b, db.batches[b].effectsClaim.value) ==
            (db.(batches := db.batches[b := row]), Got(row))
  {
    hide ChecksOk, AttemptsOk, RunsOk;
    assert BatchOk(db.batches[b]);
  }

  /** The same three facts as steps of a run, with the invariant they keep. */
  lemma RequeueIsAStep(db: Db, c: Id)
    requires Inv(db) && c in db.checks && Interrupted(db.checks[c]) && db.checks[c].evaluator.None?
    ensures var after := db.(checks := db.checks[c := Requeued(db.checks[c])]);
            Step(db, RequeueCommand(db.checks[c])).0 == after && Inv(after)
  {
    hide Inv;
    RequeueSucceeds(db, c);
    StepKeepsInv(db, RequeueCommand(db.checks[c]));
  }

  lemma ReleaseSettlementIsAStep(db: Db, b: Id)
    requires Inv(db) && b in db.batches && db.batches[b].settlementClaim.Some?
    ensures var after := db.(batches := db.batches[b := db.batches[b].(settlementClaim := None)]);
            && Step(db, ReleaseSettlement(db.batches[b].session, b, db.batches[b].settlementClaim.value)).0 == after
            && Inv(after)
  {
    hide Inv;
    ReleaseSettlementSucceeds(db, b);
    StepKeepsInv(db, ReleaseSettlement(db.batches[b].session, b, db.batches[b].settlementClaim.value));
  }

  lemma ReleaseEffectsIsAStep(db: Db, b: Id)
    requires Inv(db) && b in db.batches && db.batches[b].effectsClaim.Some?
    ensures var after := db.(batches := db.batches[b := db.batches[b].(effectsClaim := None)]);
            && Step(db, ReleaseEffects(db.batches[b].session, b, db.batches[b].effectsClaim.value)).0 == after
            && Inv(after)
  {
    hide Inv;
    ReleaseEffectsSucceeds(db, b);
    StepKeepsInv(db, ReleaseEffects(db.batches[b].session, b, db.batches[b].effectsClaim.value));
  }

  /** The restarted state is an outcome of ordinary commands, so all that holds over runs holds across restarts. */
  lemma RestartIsARun(db: Db) returns (cmds: seq<Command>)
    requires Inv(db) && RestartSafe(db)
    ensures Exec(db, cmds) == Restarted(db)
  {
    hide Inv, Step;
    var requeue := RequeueRun(db, InterruptedChecks(db.checks));
    var mid := Exec(db, requeue);
    ExecKeepsInv(db, requeue);
    var settle := DropSettlementRun(mid, SettlementClaimed(mid.batches));
    var mid2 := Exec(mid, settle);
    ExecKeepsInv(mid, settle);
    var effects := DropEffectsRun(mid2, EffectsClaimed(mid2.batches));
    ExecAppend(mid, settle, effects);
    ExecAppend(db, requeue, settle + effects);
    cmds := requeue + (settle + effects);
    RestartedInThreePasses(db, mid, mid2);
  }

  /** The three passes over checks, settlement claims and effect claims give the restarted state. */
  lemma RestartedInThreePasses(db: Db, mid: Db, mid2: Db)
    requires mid == db.(checks := RequeueAll(db.checks, InterruptedChecks(db.checks)))
    requires mid2 == mid.(batches := DropSettlement(mid.batches, SettlementClaimed(mid.batches)))
    ensures mid2.(batches := DropEffects(mid2.batches, EffectsClaimed(mid2.batches))) == Restarted(db)
  {
    assert mid.checks == Restarted(db).checks;
    assert DropEffects(mid2.batches, EffectsClaimed(mid2.batches)) == Restarted(db).batches;
  }

  lemma RunOne(db: Db, cmd: Command, rest: seq<Command>)
    ensures Exec(db, [cmd] + rest) == Exec(Step(db, cmd).0, rest)
  {
    assert ([cmd] + rest)[1..] == rest;
  }

  lemma RequeueRun(db: Db, ids: set<Id>) returns (cmds: seq<Command>)
    requires Inv(db) && ids <= InterruptedChecks(db.checks) && RestartSafe(db)
    ensures Exec(db, cmds) == db.(checks := RequeueAll(db.checks, ids))
    decreases ids
  {
    hide Inv, Step;
    if ids == {} {
      cmds := [];
      assert RequeueAll(db.checks, ids) == db.checks;
    } else {
      var c :| c in ids;
      var cmd := RequeueCommand(db.checks[c]);
      RequeueIsAStep(db, c);
      var next := Step(db, cmd).0;
      var rest := RequeueRun(next, ids - {c});
      RunOne(db, cmd, rest);
      cmds := [cmd] + rest;
      assert RequeueAll(next.checks, ids - {c}) == RequeueAll(db.checks, ids);
    }
  }

  lemma DropSettlementRun(db: Db, ids: set<Id>) returns (cmds: seq<Command>)
    requires Inv(db) && ids <= SettlementClaimed(db.batches)
    ensures Exec(db, cmds) == db.(batches := DropSettlement(db.batches, ids))
    decreases ids
  {
    hide Inv, Step;
    if ids == {} {
      cmds := [];
      assert DropSettlement(db.batches, ids) == db.batches;
    } else {
      var b :| b in ids;
      var cmd := ReleaseSettlement(db.batches[b].session, b, db.batches[b].settlementClaim.value);
      ReleaseSettlementIsAStep(db, b);
      var next := Step(db, cmd).0;
      var rest := DropSettlementRun(next, ids - {b});
      RunOne(db, cmd, rest);
      cmds := [cmd] + rest;
      assert DropSettlement(next.batches, ids - {b}) == DropSettlement(db.batches, ids);
    }
  }

  lemma DropEffectsRun(db: Db, ids: set<Id>) returns (cmds: seq<Command>)
    requires Inv(db) && ids <= EffectsClaimed(db.batches)
    ensures Exec(db, cmds) == db.(batches := DropEffects(db.batches, ids))
    decreases ids
  {
    hide Inv, Step;
    if ids == {} {
      cmds := [];
      assert DropEffects(db.batches, ids) == db.batches;
    } else {
      var b :| b in ids;
      var cmd := ReleaseEffects(db.batches[b].session, b, db.batches[b].effectsClaim.value);
      ReleaseEffectsIsAStep(db, b);
      var next := Step(db, cmd).0;
      var rest := DropEffectsRun(next, ids - {b});
      RunOne(db, cmd, rest);
      cmds := [cmd] + rest;
      assert DropEffects(next.batches, ids - {b}) == DropEffects(db.batches, ids);
    }
  }

  // ----- the restart as the service performs it -------------------------------

  /** The service holds a copy of every row; with no other writer it equals the tables. */
  class SessionService {
    const repository: SqlRepository.Repository
    var batches: map<Id, Batch>
    var checks: map<Id, Check>

    ghost predicate Synchronised()
      reads this, repository
    {
      batches == repository.batches && checks == repository.checks
    }

    /** Loads the snapshot. */
    constructor (repository: SqlRepository.Repository)
      ensures this.repository == repository && Synchronised()
    {
      this.repository := repository;
      batches, checks := repository.batches, repository.checks;
    }

    /** On a state that the lifecycle allows, normalisation reaches the restarted state, unless an interrupted check
        is bound to a thread; then it fails and releases no claim. */
    method NormalizeAfterRestart() returns (ok: bool)
      requires Synchronised() && Inv(repository.Database())
      modifies this, repository
      ensures ok <==> RestartSafe(old(repository.Database()))
      ensures ok ==> repository.Database() == Restarted(old(repository.Database()))
      ensures ok ==> AfterRestart(old(repository.Database()), repository.Database())
      ensures !ok ==> repository.batches == old(repository.batches)
      ensures Synchronised() && Inv(repository.Database())
    {
      hide Inv;
      ghost var start := repository.Database();
      ok := RequeueChecks();
      if !ok {
        return;
      }
      ghost var mid := repository.Database();
      ok := ReleaseSettlements();
      if !ok {
        return;
      }
      ghost var mid2 := repository.Database();
      ok := ReleaseEffectClaims();
      RestartedInThreePasses(start, mid, mid2);
      RestartedColumns(start);
    }

    lemma SnapshotHasAll()
      requires Synchronised()
      ensures var db := repository.Database();
              && db.checks == checks == repository.checks && db.batches == batches == repository.batches
      ensures InterruptedChecks(checks) <= checks.Keys
      ensures SettlementClaimed(batches) <= batches.Keys && EffectsClaimed(batches) <= batches.Keys
    {
    }

    method RequeueChecks() returns (ok: bool)
      requires Synchronised() && Inv(repository.Database())
      modifies this`checks, repository
      ensures ok <==> RestartSafe(old(repository.Database()))
      ensures Synchronised() && Inv(repository.Database()) && repository.batches == old(repository.batches)
      ensures ok ==>
                var was := old(repository.Database());
                repository.Database() == was.(checks := RequeueAll(was.checks, InterruptedChecks(was.checks)))
      ensures ok ==> ChecksAfterRestart(old(repository.checks), repository.checks)
    {
      hide *;
      ghost var was := repository.Database();
      SnapshotHasAll();
      var todo := InterruptedChecks(checks);
      ghost var done: set<Id> := {};
      NothingDoneYet(was);
      while todo != {}
        invariant Synchronised() && Inv(repository.Database()) && repository.batches == was.batches
        invariant todo + done == InterruptedChecks(was.checks) && todo !! done && todo <= checks.Keys
        invariant repository.Database() == was.(checks := RequeueAll(was.checks, done))
        invariant forall c :: c in done ==> was.checks[c].evaluator.None?
        decreases |todo|
      {
        var c :| c in todo;
        ok := RequeueCheck(was, done, c);
        if !ok {
          SafeIff(was);
          return;
        }
        todo, done := todo - {c}, done + {c};
      }
      assert done == InterruptedChecks(was.checks);
      SafeIff(was);
      RequeuedColumns(was.checks);
      SnapshotHasAll();
      ok := true;
    }

    /** One turn of the loop: compare-and-set in the repository, then the slot of the snapshot. */
    method RequeueCheck(ghost was: Db, ghost done: set<Id>, c: Id) returns (ok: bool)
      requires Synchronised() && Inv(repository.Database())
      requires repository.Database() == was.(checks := RequeueAll(was.checks, done))
      requires c in InterruptedChecks(was.checks) && c !in done && c in checks
      modifies this`checks, repository
      ensures Synchronised() && Inv(repository.Database()) && repository.batches == old(repository.batches)
      ensures checks.Keys == old(checks.Keys)
      ensures ok <==> was.checks[c].evaluator.None?
      ensures ok ==> repository.Database() == was.(checks := RequeueAll(was.checks, done + {c}))
    {
      hide Inv, RequeueAll, SqlUpdateCheck;
      var persisted := checks[c];
      StillInterrupted(was, repository.Database(), done, c);
      if persisted.evaluator.None? {
        RequeueStep(was, repository.Database(), done, c);
      } else {
        RequeueFails(repository.Database(), persisted);
      }
      var saved := repository.UpdateCheck(Requeued(persisted), persisted.status);
      ok := saved.CheckSaved?;
      if ok {
        checks := checks[c := saved.check];
      }
    }

    method ReleaseSettlements() returns (ok: bool)
      requires Synchronised() && Inv(repository.Database())
      modifies this`batches, repository
      ensures ok && Synchronised() && Inv(repository.Database())
      ensures var was := old(repository.Database());
              repository.Database() == was.(batches := DropSettlement(was.batches, SettlementClaimed(was.batches)))
    {
      hide *;
      ghost var was := repository.Database();
      SnapshotHasAll();
      var todo := SettlementClaimed(batches);
      ghost var done: set<Id> := {};
      NothingDoneYet(was);
      while todo != {}
        invariant Synchronised() && Inv(repository.Database())
        invariant todo + done == SettlementClaimed(was.batches) && todo !! done && todo <= batches.Keys
        invariant repository.Database() == was.(batches := DropSettlement(was.batches, done))
        decreases |todo|
      {
        var b :| b in todo;
        ok := ReleaseSettlement(was, done, b);
        if !ok {
          return;
        }
        todo, done := todo - {b}, done + {b};
      }
      assert done == SettlementClaimed(was.batches);
      ok := true;
    }

    method ReleaseSettlement(ghost was: Db, ghost done: set<Id>, b: Id) returns (ok: bool)
      requires Synchronised() && Inv(repository.Database())
      requires repository.Database() == was.(batches := DropSettlement(was.batches, done))
      requires b in SettlementClaimed(was.batches) && b !in done && b in batches
      modifies this`batches, repository
      ensures ok && Synchronised() && Inv(repository.Database()) && repository.checks == old(repository.checks)
      ensures batches.Keys == old(batches.Keys)
      ensures repository.Database() == was.(batches := DropSettlement(was.batches, done + {b}))
    {
      hide Inv, DropSettlement, SettlementClaimed, SqlReleaseSettlement;
      var persisted := batches[b];
      DropSettlementStep(was, repository.Database(), done, b);
      var saved := repository.ReleaseBatchSettlement(persisted.session, b, persisted.settlementClaim.value);
      ok := saved.Got?;
      if ok {
        batches := batches[b := saved.row];
      }
    }

    method ReleaseEffectClaims() returns (ok: bool)
      requires Synchronised() && Inv(repository.Database())
      modifies this`batches, repository
      ensures ok && Synchronised() && Inv(repository.Database())
      ensures var was := old(repository.Database());
              repository.Database() == was.(batches := DropEffects(was.batches, EffectsClaimed(was.batches)))
    {
      hide *;
      ghost var was := repository.Database();
      SnapshotHasAll();
      var todo := EffectsClaimed(batches);
      ghost var done: set<Id> := {};
      NothingDoneYet(was);
      while todo != {}
        invariant Synchronised() && Inv(repository.Database())
        invariant todo + done == EffectsClaimed(was.batches) && todo !! done && todo <= batches.Keys
        invariant repository.Database() == was.(batches := DropEffects(was.batches, done))
        decreases |todo|
      {
        var b :| b in todo;
        ok := ReleaseEffectClaim(was, done, b);
        if !ok {
          return;
        }
        todo, done := todo - {b}, done + {b};
      }
      assert done == EffectsClaimed(was.batches);
      ok := true;
    }

    method ReleaseEffectClaim(ghost was: Db, ghost done: set<Id>, b: Id) returns (ok: bool)
      requires Synchronised() && Inv(repository.Database())
      requires repository.Database() == was.(batches := DropEffects(was.batches, done))
      requires b in EffectsClaimed(was.batches) && b !in done && b in batches
      modifies this`batches, repository
      ensures ok && Synchronised() && Inv(repository.Database()) && repository.checks == old(repository.checks)
      ensures batches.Keys == old(batches.Keys)
      ensures repository.Database() == was.(batches := DropEffects(was.batches, done + {b}))
    {
      hide Inv, DropEffects, EffectsClaimed, SqlReleaseEffects;
      var persisted := batches[b];
      DropEffectsStep(was, repository.Database(), done, b);
      var saved := repository.ReleaseBatchEffects(persisted.session, b, persisted.effectsClaim.value);
      ok := saved.Got?;
      if ok {
        batches := batches[b := saved.row];
      }
    }
  }

  lemma NothingDoneYet(db: Db)
    ensures RequeueAll(db.checks, {}) == db.checks
    ensures DropSettlement(db.batches, {}) == db.batches && DropEffects(db.batches, {}) == db.batches
    ensures InterruptedChecks(db.checks) <= db.checks.Keys
    ensures SettlementClaimed(db.batches) <= db.batches.Keys && EffectsClaimed(db.batches) <= db.batches.Keys
  {
  }

  /** A check that is still to do is as it was. */
  lemma StillInterrupted(was: Db, before: Db, done: set<Id>, c: Id)
    requires before == was.(checks := RequeueAll(was.checks, done))
    requires c in InterruptedChecks(was.checks) && c !in done
    ensures before.checks.Keys == was.checks.Keys && before.checks[c] == was.checks[c] && Interrupted(was.checks[c])
  {
  }

  lemma RequeueStep(was: Db, before: Db, done: set<Id>, c: Id)
    requires Inv(before) && before == was.(checks := RequeueAll(was.checks, done))
    requires c in InterruptedChecks(was.checks) && c !in done && was.checks[c].evaluator.None?
    ensures var after := was.(checks := RequeueAll(was.checks, done + {c}));
            && before.checks.Keys == was.checks.Keys && before.checks[c] == was.checks[c] && was.checks[c].status == Running
            && SqlUpdateCheck(before, Requeued(was.checks[c]), Running) == (after, CheckSaved(Requeued(was.checks[c])))
            && after.checks == before.checks[c := Requeued(was.checks[c])]
            && Inv(after)
  {
    hide Inv, Step, SqlUpdateCheck;
    RequeueSucceeds(before, c);
    RequeueIsAStep(before, c);
    assert RequeueAll(was.checks, done + {c}) == before.checks[c := Requeued(was.checks[c])];
  }

  lemma DropSettlementStep(was: Db, before: Db, done: set<Id>, b: Id)
    requires Inv(before) && before == was.(batches := DropSettlement(was.batches, done))
    requires b in SettlementClaimed(was.batches) && b !in done
    ensures var after := was.(batches := DropSettlement(was.batches, done + {b}));
            var row := was.batches[b].(settlementClaim := None);
            && before.batches.Keys == was.batches.Keys && before.batches[b] == was.batches[b] && was.batches[b].settlementClaim.Some?
            && SqlReleaseSettlement(before, was.batches[b].session, b, was.batches[b].settlementClaim.value) == (after, Got(row))
            && after.batches == before.batches[b := row]
            && Inv(after)
  {
    hide Inv, Step, SqlReleaseSettlement;
    ReleaseSettlementSucceeds(before, b);
    ReleaseSettlementIsAStep(before, b);
    assert DropSettlement(was.batches, done + {b}) == before.batches[b := was.batches[b].(settlementClaim := None)];
  }

  lemma DropEffectsStep(was: Db, before: Db, done: set<Id>, b: Id)
    requires Inv(before) && before == was.(batches := DropEffects(was.batches, done))
    requires b in EffectsClaimed(was.batches) && b !in done
    ensures var after := was.(batches := DropEffects(was.batches, done + {b}));
            var row := was.batches[b].(effectsClaim := None);
            && before.batches.Keys == was.batches.Keys && before.batches[b] == was.batches[b] && was.batches[b].effectsClaim.Some?
            && SqlReleaseEffects(before, was.batches[b].session, b, was.batches[b].effectsClaim.value) == (after, Got(row))
            && after.batches == before.batches[b := row]
            && Inv(after)
  {
    hide Inv, Step, SqlReleaseEffects;
    ReleaseEffectsSucceeds(before, b);
    ReleaseEffectsIsAStep(before, b);
    assert DropEffects(was.batches, done + {b}) == before.batches[b := was.batches[b].(effectsClaim := None)];
  }

  /** A restart leaves no claim and no interrupted check, and keeps every verdict and every finished check. */
  lemma RestartFacts(db: Db)
    requires Inv(db) && RestartSafe(db)
    ensures var after := Restarted(db);
            && Inv(after)
            && (forall b :: b in after.batches ==>
                  after.batches[b].settlementClaim.None? && after.batches[b].effectsClaim.None?)
            && (forall c :: c in after.checks ==> !Interrupted(after.checks[c]))
            && (forall c :: c in db.checks && Terminal(db.checks[c].status) ==>
                  c in after.checks && after.checks[c] == db.checks[c])
  {
    hide Inv, Step;
    var cmds := RestartIsARun(db);
    ExecKeepsInv(db, cmds);
  }

  // ----- no batch is ever stuck -----------------------------------------------

  function FailCommand(c: Check): Command {
    UpdateCheck(c.(status := Failed, report := None, passed := None, error := Some("lost"), completedAt := Some("now")), c.status)
  }

  /** A check that is not terminal can be failed, which leaves every batch row alone. */
  lemma FailSucceeds(db: Db, c: Id)
    requires Inv(db) && c in db.checks && !Terminal(db.checks[c].status)
    ensures Step(db, FailCommand(db.checks[c])).0 == db.(checks := db.checks[c := FailCommand(db.checks[c]).check])
  {
    hide BatchesOk, AttemptsOk, RunsOk, CheckOk, SqlUpdateCheck;
    assert CheckOk(db, db.checks[c]);
    FailedRowIsSaved(db, c);
  }

  lemma FailedRowIsSaved(db: Db, c: Id)
    requires c in db.checks && db.checks[c].id == c && CheckOk(db, db.checks[c]) && !Terminal(db.checks[c].status)
    ensures SqlUpdateCheck(db, FailCommand(db.checks[c]).check, db.checks[c].status).0
            == db.(checks := db.checks[c := FailCommand(db.checks[c]).check])
  {
    hide HasIdentity;
    assert !SqlBlank("lost") by { assert "lost"[0] != ' '; }
  }

  lemma FailIsAStep(db: Db, c: Id)
    requires Inv(db) && c in db.checks && !Terminal(db.checks[c].status)
    ensures var after := db.(checks := db.checks[c := FailCommand(db.checks[c]).check]);
            Step(db, FailCommand(db.checks[c])).0 == after && Inv(after)
  {
    hide Inv, Step;
    FailSucceeds(db, c);
    StepKeepsInv(db, FailCommand(db.checks[c]));
  }

  /** The checks of `ids` can be brought to a terminal status without touching other checks or any batch. */
  lemma FinishChecks(db: Db, ids: set<Id>) returns (cmds: seq<Command>)
    requires Inv(db) && ids <= db.checks.Keys
    ensures Exec(db, cmds).batches == db.batches && Exec(db, cmds).runs == db.runs
    ensures Exec(db, cmds).checks.Keys == db.checks.Keys
    ensures forall c :: c in db.checks ==> Exec(db, cmds).checks[c].batch == db.checks[c].batch
    ensures forall c :: c in ids ==> Terminal(Exec(db, cmds).checks[c].status)
    ensures forall c :: c in db.checks && Terminal(db.checks[c].status) ==> Exec(db, cmds).checks[c] == db.checks[c]
    decreases ids
  {
    hide Inv, Step;
    if ids == {} {
      cmds := [];
    } else {
      var c :| c in ids;
      if Terminal(db.checks[c].status) {
        cmds := FinishChecks(db, ids - {c});
      } else {
        var cmd := FailCommand(db.checks[c]);
        FailIsAStep(db, c);
        var rest := FinishChecks(Step(db, cmd).0, ids - {c});
        RunOne(db, cmd, rest);
        cmds := [cmd] + rest;
      }
    }
  }

  lemma RunTwo(db: Db, first: Command, second: Command)
    ensures Exec(db, [first, second]) == Step(Step(db, first).0, second).0
  {
    hide Step;
    assert [first, second][1..] == [second];
    assert Exec(Step(db, first).0, [second]) == Exec(Step(Step(db, first).0, second).0, []);
  }

  lemma TokenIsNotBlank()
    ensures !Blank("t") && !SqlBlank("t")
  {
    assert "t"[0] !in WHITE_SPACE && "t"[0] != ' ';
  }

  lemma ClaimWorks(db: Db, id: Id)
    requires id in db.batches && db.batches[id].id == id && BatchOk(db.batches[id]) && AllTerminal(db.checks, id)
    requires Open(db.batches[id].status) && db.batches[id].settlementClaim.None?
    ensures Step(db, ClaimSettlement(db.batches[id].session, id, "t")).0
            == db.(batches := db.batches[id := db.batches[id].(settlementClaim := Some("t"))])
  {
    TokenIsNotBlank();
    hide AllTerminal, Blank, SqlBlank;
  }

  lemma FailureSettles(db: Db, id: Id)
    requires id in db.batches && db.batches[id].id == id && BatchOk(db.batches[id].(settlementClaim := None))
    requires Open(db.batches[id].status) && db.batches[id].settlementClaim == Some("t") && AllTerminal(db.checks, id)
    ensures var after := Step(db, Command.Settle(db.batches[id].session, id, "t", BatchFailed, None, "t")).0;
            && id in after.batches && after.batches[id].settledAt.Some?
            && after.batches[id].effectsClaim.None? && after.batches[id].appliedAt.None?
  {
    TokenIsNotBlank();
    hide AllTerminal, Blank, SqlBlank;
  }

  /** An unclaimed open batch whose checks are terminal can be settled. */
  lemma CanSettle(db: Db, id: Id)
    requires id in db.batches && db.batches[id].id == id && BatchOk(db.batches[id]) && db.batches[id].settledAt.None?
    requires db.batches[id].settlementClaim.None? && AllTerminal(db.checks, id)
    ensures var session := db.batches[id].session;
            var after := Exec(db, [ClaimSettlement(session, id, "t"),
                                   Command.Settle(session, id, "t", BatchFailed, None, "t")]);
            && id in after.batches && after.batches[id].settledAt.Some?
            && after.batches[id].effectsClaim.None? && after.batches[id].appliedAt.None?
  {
    hide AllTerminal, Step, Exec, BatchRowOk;
    var session := db.batches[id].session;
    var row := db.batches[id].(settlementClaim := Some("t"));
    ClaimWorks(db, id);
    assert row.(settlementClaim := None) == db.batches[id];
    FailureSettles(db.(batches := db.batches[id := row]), id);
    RunTwo(db, ClaimSettlement(session, id, "t"), Command.Settle(session, id, "t", BatchFailed, None, "t"));
  }

  lemma EffectsClaimWorks(db: Db, id: Id)
    requires id in db.batches && db.batches[id].id == id && BatchOk(db.batches[id]) && db.batches[id].settledAt.Some?
    requires db.batches[id].effectsClaim.None? && db.batches[id].appliedAt.None?
    ensures Step(db, ClaimEffects(db.batches[id].session, id, "t")).0
            == db.(batches := db.batches[id := db.batches[id].(effectsClaim := Some("t"))])
  {
    TokenIsNotBlank();
    hide Blank, SqlBlank;
  }

  lemma MarkWorks(db: Db, id: Id)
    requires id in db.batches && db.batches[id].id == id && BatchOk(db.batches[id].(effectsClaim := None))
    requires db.batches[id].settledAt.Some? && db.batches[id].effectsClaim == Some("t") && db.batches[id].appliedAt.None?
    ensures var after := Step(db, Command.MarkApplied(db.batches[id].session, id, "t", "t")).0;
            id in after.batches && after.batches[id].appliedAt.Some?
  {
    TokenIsNotBlank();
    hide Blank, SqlBlank;
  }

  /** A settled batch whose effects nobody owns can be applied. */
  lemma CanApply(db: Db, id: Id)
    requires id in db.batches && db.batches[id].id == id && BatchOk(db.batches[id]) && db.batches[id].settledAt.Some?
    requires db.batches[id].effectsClaim.None? && db.batches[id].appliedAt.None?
    ensures var session := db.batches[id].session;
            var after := Exec(db, [ClaimEffects(session, id, "t"), Command.MarkApplied(session, id, "t", "t")]);
            id in after.batches && after.batches[id].appliedAt.Some?
  {
    hide Step, Exec, BatchOk;
    var session := db.batches[id].session;
    var row := db.batches[id].(effectsClaim := Some("t"));
    EffectsClaimWorks(db, id);
    assert row.(effectsClaim := None) == db.batches[id];
    MarkWorks(db.(batches := db.batches[id := row]), id);
    RunTwo(db, ClaimEffects(session, id, "t"), Command.MarkApplied(session, id, "t", "t"));
  }

  /** No reachable state is stuck: from any state that satisfies the invariant, every batch can still
      reach effects-applied. */
  lemma CanFinish(db: Db, id: Id) returns (cmds: seq<Command>)
    requires Inv(db) && id in db.batches
    ensures id in Exec(db, cmds).batches && Exec(db, cmds).batches[id].appliedAt.Some?
  {
    hide Inv, SqlSteps.Step;
    if db.batches[id].appliedAt.Some? {
      cmds := [];
      return;
    }
    var settlement := DropSettlementRun(db, SettlementClaimed(db.batches));
    var mid := Exec(db, settlement);
    ExecKeepsInv(db, settlement);
    var effects := DropEffectsRun(mid, EffectsClaimed(mid.batches));
    ExecKeepsInv(mid, effects);
    var rest := CanFinishFresh(Exec(mid, effects), id);
    ExecAppend(mid, effects, rest);
    ExecAppend(db, settlement, effects + rest);
    cmds := settlement + (effects + rest);
  }

  lemma RowFacts(db: Db, id: Id)
    requires Inv(db) && id in db.batches
    ensures db.batches[id].id == id && BatchOk(db.batches[id]) && OwnsTrio(db.checks, id)
  {
    hide ChecksOk, AttemptsOk, RunsOk, BatchOk;
  }

  lemma AllFinished(was: map<Id, Check>, now: map<Id, Check>, id: Id)
    requires OwnsTrio(was, id) && now.Keys == was.Keys
    requires forall c :: c in was ==> now[c].batch == was[c].batch
    requires forall c :: c in ChecksOf(was, id) ==> Terminal(now[c].status)
    ensures AllTerminal(now, id)
  {
    TrioFacts(was, id, Structural);
    assert ChecksOf(now, id) == ChecksOf(was, id);
  }

  lemma CanFinishFresh(db: Db, id: Id) returns (cmds: seq<Command>)
    requires Inv(db) && id in db.batches && db.batches[id].appliedAt.None?
    requires db.batches[id].settlementClaim.None? && db.batches[id].effectsClaim.None?
    ensures id in Exec(db, cmds).batches && Exec(db, cmds).batches[id].appliedAt.Some?
  {
    hide Inv, Step, BatchOk, OwnsTrio, AllTerminal;
    var session := db.batches[id].session;
    var apply := [ClaimEffects(session, id, "t"), Command.MarkApplied(session, id, "t", "t")];
    RowFacts(db, id);
    if db.batches[id].settledAt.Some? {
      cmds := apply;
      CanApply(db, id);
      return;
    }
    var finish := FinishChecks(db, ChecksOf(db.checks, id));
    var settle := [ClaimSettlement(session, id, "t"), Command.Settle(session, id, "t", BatchFailed, None, "t")];
    var done := Exec(db, finish);
    var settled := Exec(done, settle);
    ExecKeepsInv(db, finish);
    AllFinished(db.checks, done.checks, id);
    CanSettle(done, id);
    ExecKeepsInv(done, settle);
    RowFacts(settled, id);
    SessionIsKept(done, settle, id);
    CanApply(settled, id);
    ExecAppend(done, settle, apply);
    ExecAppend(db, finish, settle + apply);
    cmds := finish + (settle + apply);
  }

  lemma SessionIsKept(db: Db, cmds: seq<Command>, id: Id)
    requires Inv(db) && id in db.batches
    ensures id in Exec(db, cmds).batches && Exec(db, cmds).batches[id].session == db.batches[id].session
  {
    LifecycleRuns.VerdictIsFinal(db, cmds, id);
  }
}
