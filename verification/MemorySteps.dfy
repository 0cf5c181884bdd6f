/**
  The in-memory repository (session_repository.rs): the same calls with shorter
  guards and no constraints or triggers behind them.
*/
module MemorySteps {
  import opened Text
  import opened ValidationRows
  import opened SqlSteps

  datatype Store = Store(batches: map<Id, Batch>, checks: map<Id, Check>)

  function Put(m: Store, id: Id, row: Batch): (Store, Reply) {
    (m.(batches := m.batches[id := row]), Got(row))
  }

  predicate Has(m: Store, session: Id, id: Id) {
    id in m.batches && m.batches[id].session == session
  }

  ghost function MemCreate(m: Store, batch: Batch, checks: seq<Check>): (Store, Reply) {
    var attempt := NextAttempt(m.batches, batch.run, batch.revision);
    if |checks| != 3
       || checks[0].id == checks[1].id || checks[0].id == checks[2].id || checks[1].id == checks[2].id
       || EffectsOwned(m.batches, batch.run, batch.revision)
       || attempt > U32_MAX || batch.id in m.batches
    then (m, Refused)
    else
      match StampAll(checks, batch.id, attempt)
      case None => (m, Refused)
      case Some(rows) =>
        if rows[0].id in m.checks || rows[1].id in m.checks || rows[2].id in m.checks then (m, Refused)
        else
          var row := batch.(attempt := attempt);
          (Store(m.batches[batch.id := row],
                 m.checks[rows[0].id := rows[0]][rows[1].id := rows[1]][rows[2].id := rows[2]]),
           Created(row, rows))
  }

  function MemUpdateCheck(m: Store, check: Check, expected: CheckStatus): (Store, Reply) {
    if check.id !in m.checks || m.checks[check.id].status != expected then (m, Refused)
    else if check.status == Running && check.batch !in m.batches then (m, Refused)
    else
      var checks := m.checks[check.id := check];
      if check.status == Running && m.batches[check.batch].status == BatchQueued then
        var row := m.batches[check.batch].(status := BatchRunning, startedAt := check.startedAt);
        (Store(m.batches[check.batch := row], checks), CheckSaved(check))
      else (m.(checks := checks), CheckSaved(check))
  }

  /** The second half of a settlement claim, under the batch lock; the first one counted under the check lock. */
  function MemClaimUnderBatchLock(m: Store, session: Id, id: Id, token: string): (Store, Reply) {
    if Has(m, session, id) && Open(m.batches[id].status) && m.batches[id].settlementClaim.None?
    then Put(m, id, m.batches[id].(settlementClaim := Some(token)))
    else (m, NotClaimed)
  }

  function MemClaimSettlement(m: Store, session: Id, id: Id, token: string): (Store, Reply) {
    if |TerminalChecksOf(m.checks, id)| == 3 then MemClaimUnderBatchLock(m, session, id, token) else (m, NotClaimed)
  }

  function MemSettle(m: Store, session: Id, id: Id, token: string, status: BatchStatus,
                     aggregate: Option<Report>, at: string): (Store, Reply)
  {
    if Has(m, session, id) && m.batches[id].settlementClaim == Some(token) && m.batches[id].settledAt.None?
    then Put(m, id, m.batches[id].(status := status, aggregate := aggregate, settlementClaim := None, settledAt := Some(at)))
    else (m, Refused)
  }

  function MemReleaseSettlement(m: Store, session: Id, id: Id, token: string): (Store, Reply) {
    if Has(m, session, id) && m.batches[id].settlementClaim == Some(token)
    then Put(m, id, m.batches[id].(settlementClaim := None))
    else (m, Refused)
  }

  function MemClaimEffects(m: Store, session: Id, id: Id, token: string): (Store, Reply) {
    if !Blank(token) && Has(m, session, id) && !Open(m.batches[id].status) && m.batches[id].settledAt.Some?
       && m.batches[id].effectsClaim.None? && m.batches[id].appliedAt.None?
    then Put(m, id, m.batches[id].(effectsClaim := Some(token)))
    else (m, NotClaimed)
  }

  function MemReleaseEffects(m: Store, session: Id, id: Id, token: string): (Store, Reply) {
    if Has(m, session, id) && m.batches[id].effectsClaim == Some(token) && m.batches[id].appliedAt.None?
    then Put(m, id, m.batches[id].(effectsClaim := None))
    else (m, Refused)
  }

  function MemMarkApplied(m: Store, session: Id, id: Id, token: string, at: string): (Store, Reply) {
    if Has(m, session, id) && m.batches[id].settledAt.Some? && m.batches[id].effectsClaim == Some(token)
       && m.batches[id].appliedAt.None?
    then Put(m, id, m.batches[id].(effectsClaim := None, appliedAt := Some(at)))
    else (m, Refused)
  }

  function MemRequestRefinement(m: Store, session: Id, id: Id, token: string, at: string): (Store, Reply) {
    if !Blank(at) && Has(m, session, id) && m.batches[id].status == BatchSucceeded && m.batches[id].settledAt.Some?
       && RejectedInRust(m.batches[id].aggregate)
       && m.batches[id].requestedAt.None? && m.batches[id].boundAt.None?
       && m.batches[id].effectsClaim == Some(token) && m.batches[id].appliedAt.None?
    then Put(m, id, m.batches[id].(requestedAt := Some(at)))
    else (m, Refused)
  }

  function MemBindRefinement(m: Store, session: Id, id: Id, token: string, at: string): (Store, Reply) {
    if !Blank(at) && Has(m, session, id) && m.batches[id].requestedAt.Some? && m.batches[id].boundAt.None?
       && m.batches[id].effectsClaim == Some(token) && m.batches[id].appliedAt.None?
    then Put(m, id, m.batches[id].(boundAt := Some(at), effectsClaim := None, appliedAt := Some(at)))
    else (m, Refused)
  }

  predicate MemIsLatest(m: Store, session: Id, id: Id)
    requires id in m.batches
  {
    var b := m.batches[id];
    && b.session == session
    && !exists o :: o in m.batches && m.batches[o].run == b.run
                    && m.batches[o].revision == b.revision && m.batches[o].attempt > b.attempt
  }

  /** Runs, threads and artifacts are accepted and not stored. */
  ghost function MemStep(m: Store, cmd: Command): (Store, Reply) {
    match cmd
    case CreateBatch(batch, checks) => MemCreate(m, batch, checks)
    case UpdateCheck(check, expected) => MemUpdateCheck(m, check, expected)
    case ClaimSettlement(session, id, token) => MemClaimSettlement(m, session, id, token)
    case Settle(session, id, token, status, aggregate, at) => MemSettle(m, session, id, token, status, aggregate, at)
    case ReleaseSettlement(session, id, token) => MemReleaseSettlement(m, session, id, token)
    case ClaimEffects(session, id, token) => MemClaimEffects(m, session, id, token)
    case ReleaseEffects(session, id, token) => MemReleaseEffects(m, session, id, token)
    case MarkApplied(session, id, token, at) => MemMarkApplied(m, session, id, token, at)
    case RequestRefinement(session, id, token, at) => MemRequestRefinement(m, session, id, token, at)
    case BindRefinement(session, id, token, at) => MemBindRefinement(m, session, id, token, at)
    case _ => (m, Stored)
  }

  /**
    The repository object. Most methods hold one lock, or both, for their whole body. A settlement claim counts the
    checks under one lock and writes the batch under the other one; that it may still be one step is
    `Simulation.ClaimInTwoSectionsIsAtomic`.
  */
  class InMemoryRepository {
    var batches: map<Id, Batch>
    var checks: map<Id, Check>

    ghost function Contents(): Store
      reads this
    {
      Store(batches, checks)
    }

    constructor ()
      ensures Contents() == Store(map[], map[])
    {
      batches, checks := map[], map[];
    }

    method NextBatchAttempt(run: Id, revision: Id) returns (attempt: nat)
      ensures attempt == NextAttempt(batches, run, revision)
    {
      var top := 0;
      var todo := batches.Keys;
      while todo != {}
        invariant todo <= batches.Keys
        invariant forall id | id in batches.Keys - todo ::
                    batches[id].run == run && batches[id].revision == revision ==> batches[id].attempt <= top
        invariant top == 0 || top in Attempts(batches, run, revision)
        decreases |todo|
      {
        var id :| id in todo;
        todo := todo - {id};
        if batches[id].run == run && batches[id].revision == revision && top < batches[id].attempt {
          top := batches[id].attempt;
        }
      }
      assert MaxOf(Attempts(batches, run, revision)) <= top;
      attempt := top + 1;
    }

    /** `is_latest_validation_batch`; none for a batch that is not stored. */
    method IsLatestBatch(session: Id, id: Id) returns (latest: Option<bool>)
      ensures latest.Some? <==> id in batches
      ensures latest.Some? ==> (latest.value <==> MemIsLatest(Contents(), session, id))
    {
      if id !in batches {
        return None;
      }
      var batch := batches[id];
      if batch.session != session {
        return Some(false);
      }
      var todo := batches.Keys;
      while todo != {}
        invariant todo <= batches.Keys
        invariant forall o | o in batches.Keys - todo ::
                    !(batches[o].run == batch.run && batches[o].revision == batch.revision && batches[o].attempt > batch.attempt)
        decreases |todo|
      {
        var o :| o in todo;
        todo := todo - {o};
        if batches[o].run == batch.run && batches[o].revision == batch.revision && batches[o].attempt > batch.attempt {
          return Some(false);
        }
      }
      latest := Some(true);
    }

    method CreateBatch(batch: Batch, newChecks: seq<Check>) returns (reply: Reply)
      modifies this
      ensures (Contents(), reply) == MemCreate(old(Contents()), batch, newChecks)
    {
      hide StampIdentity;
      if |newChecks| != 3 || newChecks[0].id == newChecks[1].id || newChecks[0].id == newChecks[2].id
         || newChecks[1].id == newChecks[2].id || EffectsOwned(batches, batch.run, batch.revision) {
        return Refused;
      }
      var attempt := NextBatchAttempt(batch.run, batch.revision);
      if attempt > U32_MAX || batch.id in batches {
        return Refused;
      }
      var stamped := StampAll(newChecks, batch.id, attempt);
      if stamped.None? {
        return Refused;
      }
      var rows := stamped.value;
      if rows[0].id in checks || rows[1].id in checks || rows[2].id in checks {
        return Refused;
      }
      batches := batches[batch.id := batch.(attempt := attempt)];
      var i := 0;
      ghost var before := checks;
      while i < 3
        invariant 0 <= i <= 3 && batches == old(batches)[batch.id := batch.(attempt := attempt)]
        invariant checks == (if i == 0 then before
                             else if i == 1 then before[rows[0].id := rows[0]]
                             else if i == 2 then before[rows[0].id := rows[0]][rows[1].id := rows[1]]
                             else before[rows[0].id := rows[0]][rows[1].id := rows[1]][rows[2].id := rows[2]])
      {
        checks := checks[rows[i].id := rows[i]];
        i := i + 1;
      }
      reply := Created(batch.(attempt := attempt), rows);
    }

    method UpdateCheck(check: Check, expected: CheckStatus) returns (reply: Reply)
      modifies this
      ensures (Contents(), reply) == MemUpdateCheck(old(Contents()), check, expected)
    {
      if check.id !in checks || checks[check.id].status != expected {
        return Refused;
      }
      if check.status == Running && check.batch !in batches {
        return Refused;
      }
      checks := checks[check.id := check];
      if check.status == Running {
        var batch := batches[check.batch];
        if batch.status == BatchQueued {
          batches := batches[check.batch := batch.(status := BatchRunning, startedAt := check.startedAt)];
        }
      }
      reply := CheckSaved(check);
    }

    method TryClaimSettlement(session: Id, id: Id, claimedAt: string) returns (reply: Reply)
      modifies this`batches
      ensures (Contents(), reply) == MemClaimSettlement(old(Contents()), session, id, claimedAt)
    {
      if |TerminalChecksOf(checks, id)| != 3 || id !in batches {
        return NotClaimed;
      }
      var batch := batches[id];
      if batch.session != session || !Open(batch.status) || batch.settlementClaim.Some? {
        return NotClaimed;
      }
      batches := batches[id := batch.(settlementClaim := Some(claimedAt))];
      reply := Got(batches[id]);
    }

    method SettleBatch(session: Id, id: Id, token: string, status: BatchStatus, aggregate: Option<Report>, at: string)
      returns (reply: Reply)
      modifies this`batches
      ensures (Contents(), reply) == MemSettle(old(Contents()), session, id, token, status, aggregate, at)
    {
      if id !in batches {
        return Refused;
      }
      var batch := batches[id];
      if batch.session != session || batch.settlementClaim != Some(token) || batch.settledAt.Some? {
        return Refused;
      }
      batch := batch.(status := status);
      batch := batch.(aggregate := aggregate);
      batch := batch.(settlementClaim := None);
      batch := batch.(settledAt := Some(at));
      batches := batches[id := batch];
      reply := Got(batch);
    }

    method ReleaseBatchSettlement(session: Id, id: Id, token: string) returns (reply: Reply)
      modifies this`batches
      ensures (Contents(), reply) == MemReleaseSettlement(old(Contents()), session, id, token)
    {
      if id !in batches || batches[id].session != session || batches[id].settlementClaim != Some(token) {
        return Refused;
      }
      batches := batches[id := batches[id].(settlementClaim := None)];
      reply := Got(batches[id]);
    }

    method TryClaimEffects(session: Id, id: Id, claimedAt: string) returns (reply: Reply)
      modifies this`batches
      ensures (Contents(), reply) == MemClaimEffects(old(Contents()), session, id, claimedAt)
    {
      if id !in batches {
        return NotClaimed;
      }
      var batch := batches[id];
      if Blank(claimedAt) || batch.session != session || Open(batch.status) || batch.settledAt.None?
         || batch.effectsClaim.Some? || batch.appliedAt.Some? {
        return NotClaimed;
      }
      batches := batches[id := batch.(effectsClaim := Some(claimedAt))];
      reply := Got(batches[id]);
    }

    method ReleaseBatchEffects(session: Id, id: Id, token: string) returns (reply: Reply)
      modifies this`batches
      ensures (Contents(), reply) == MemReleaseEffects(old(Contents()), session, id, token)
    {
      if id !in batches || batches[id].session != session || batches[id].effectsClaim != Some(token)
         || batches[id].appliedAt.Some? {
        return Refused;
      }
      batches := batches[id := batches[id].(effectsClaim := None)];
      reply := Got(batches[id]);
    }

    method MarkEffectsApplied(session: Id, id: Id, token: string, at: string) returns (reply: Reply)
      modifies this`batches
      ensures (Contents(), reply) == MemMarkApplied(old(Contents()), session, id, token, at)
    {
      if id !in batches || batches[id].session != session || batches[id].settledAt.None?
         || batches[id].effectsClaim != Some(token) || batches[id].appliedAt.Some? {
        return Refused;
      }
      var batch := batches[id];
      batch := batch.(effectsClaim := None);
      batch := batch.(appliedAt := Some(at));
      batches := batches[id := batch];
      reply := Got(batch);
    }

    method RequestBatchRefinement(session: Id, id: Id, token: string, at: string) returns (reply: Reply)
      modifies this`batches
      ensures (Contents(), reply) == MemRequestRefinement(old(Contents()), session, id, token, at)
    {
      if id !in batches {
        return Refused;
      }
      var batch := batches[id];
      if Blank(at) || batch.session != session || batch.status != BatchSucceeded || batch.settledAt.None?
         || !RejectedInRust(batch.aggregate) || batch.requestedAt.Some? || batch.boundAt.Some?
         || batch.effectsClaim != Some(token) || batch.appliedAt.Some? {
        return Refused;
      }
      batches := batches[id := batch.(requestedAt := Some(at))];
      reply := Got(batches[id]);
    }

    method BindBatchRefinement(session: Id, id: Id, token: string, at: string) returns (reply: Reply)
      modifies this`batches
      ensures (Contents(), reply) == MemBindRefinement(old(Contents()), session, id, token, at)
    {
      if id !in batches {
        return Refused;
      }
      var batch := batches[id];
      if Blank(at) || batch.session != session || batch.requestedAt.None? || batch.boundAt.Some?
         || batch.effectsClaim != Some(token) || batch.appliedAt.Some? {
        return Refused;
      }
      batches := batches[id := batch.(boundAt := Some(at), effectsClaim := None, appliedAt := Some(at))];
      reply := Got(batches[id]);
    }
  }
}
