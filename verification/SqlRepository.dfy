/**
  The SQLite repository as an object (session_repository/save.rs): its tables
  are fields and each call is one transaction that updates them in place.
*/
module SqlRepository {
  import opened Text
  import opened ValidationRows
  import opened SqlSteps

  class Repository {
    var batches: map<Id, Batch>
    var checks: map<Id, Check>
    var runs: map<Id, Run>
    var evaluations: set<Evaluation>
    var evaluators: set<Evaluator>
    var artifacts: set<ArtifactLink>

    ghost function Database(): Db
      reads this
    {
      Db(batches, checks, runs, evaluations, evaluators, artifacts)
    }

    constructor ()
      ensures Database() == EMPTY
    {
      batches, checks, runs, evaluations, evaluators, artifacts := map[], map[], map[], {}, {}, {};
    }

    /** `SELECT COALESCE(MAX(attempt), 0)`. */
    method MaximumAttempt(run: Id, revision: Id) returns (top: nat)
      ensures top == MaxOf(Attempts(batches, run, revision))
    {
      top := 0;
      var todo := batches.Keys;
      while todo != {}
        invariant todo <= batches.Keys
        invariant forall id | id in batches.Keys - todo ::
                    batches[id].run == run && batches[id].revision == revision ==> batches[id].attempt <= top
        invariant top == 0 || top in Attempts(batches, run, revision)
        decreases |todo|
      {
        var id :| id in todo;
        todo := todo - {id};
        if batches[id].run == run && batches[id].revision == revision && top < batches[id].attempt {
          top := batches[id].attempt;
        }
      }
      assert MaxOf(Attempts(batches, run, revision)) <= top;
    }

    /** Writes the allocated identity into each contract, one check after the other. */
    method StampRows(newChecks: seq<Check>, batch: Id, attempt: nat) returns (rows: Option<seq<Check>>)
      requires |newChecks| == 3
      ensures rows == StampAll(newChecks, batch, attempt)
    {
      var stampedRows := newChecks;
      for i := 0 to 3
        invariant |stampedRows| == 3
        invariant forall j :: i <= j < 3 ==> stampedRows[j] == newChecks[j]
        invariant forall j :: 0 <= j < i ==>
                    var stamped := StampIdentity(newChecks[j].contract, batch, newChecks[j].id, attempt);
                    stamped.Some? && stampedRows[j] == newChecks[j].(contract := stamped.value)
      {
        hide StampIdentity;
        var stamped := StampIdentity(stampedRows[i].contract, batch, stampedRows[i].id, attempt);
        if stamped.None? {
          assert i == 0 || i == 1 || i == 2;
          return None;
        }
        stampedRows := stampedRows[i := stampedRows[i].(contract := stamped.value)];
      }
      assert stampedRows == [stampedRows[0], stampedRows[1], stampedRows[2]];
      rows := Some(stampedRows);
    }

    method CreateBatch(batch: Batch, newChecks: seq<Check>) returns (reply: Reply)
      modifies this
      ensures (Database(), reply) == SqlCreate(old(Database()), batch, newChecks)
    {
      hide BatchRowOk, ChecksFit, PristineBatch, PristineCheck, StampAll, EffectsOwned, ChecksOf, Attempts;
      if !CreateArgumentsOk(batch, newChecks) || EffectsOwned(batches, batch.run, batch.revision) {
        return Refused;
      }
      var maximum := MaximumAttempt(batch.run, batch.revision);
      var attempt := maximum + 1;
      if attempt > U32_MAX {
        return Refused;
      }
      var row := batch.(attempt := attempt);
      var stamped := StampRows(newChecks, batch.id, attempt);
      if stamped.None? {
        return Refused;
      }
      var rows := stamped.value;
      if batch.id in batches || !BatchRowOk(row)
         || row.run !in runs || runs[row.run].session != row.session || runs[row.run].outputRevision != Some(row.revision)
         || ArtifactLink(row.session, row.revision, row.artifact) !in artifacts {
        return Refused;
      }
      if !ChecksFit(checks, row, rows) || ChecksOf(checks, batch.id) != {} {
        return Refused;
      }
      batches := batches[batch.id := row];
      checks := checks[rows[0].id := rows[0]][rows[1].id := rows[1]][rows[2].id := rows[2]];
      reply := Created(row, rows);
    }

    method UpdateRow(columns: set<Column>, now: Batch) returns (reply: Reply)
      requires now.id in batches
      modifies this`batches
      ensures (Database(), reply) == UpdateBatch(old(Database()), columns, now)
    {
      if !BatchRowOk(now) || !BatchTriggersPass(Db(batches, checks, runs, evaluations, evaluators, artifacts), columns, batches[now.id], now) {
        return Refused;
      }
      batches := batches[now.id := now];
      reply := Got(now);
    }

    method UpdateCheck(check: Check, expected: CheckStatus) returns (reply: Reply)
      modifies this`batches, this`checks
      ensures (Database(), reply) == SqlUpdateCheck(old(Database()), check, expected)
    {
      if check.id !in checks || !CheckRowMatches(checks[check.id], check, expected) || !CheckRowOk(check)
         || !CheckTriggersPass(Db(batches, checks, runs, evaluations, evaluators, artifacts), checks[check.id], check) {
        return Refused;
      }
      var before := checks;
      checks := checks[check.id := check];
      if check.status == Running && check.batch in batches && batches[check.batch].id == check.batch
         && batches[check.batch].session == check.session && batches[check.batch].status == BatchQueued {
        var was := batches[check.batch];
        var started := if was.startedAt.Some? then was.startedAt else check.startedAt;
        var update := UpdateRow({StatusCol, StartedCol}, was.(status := BatchRunning, startedAt := started));
        if update == Refused {
          checks := before;  // the transaction rolls back
          return Refused;
        }
      }
      reply := CheckSaved(check);
    }

    method TryClaimSettlement(session: Id, id: Id, claimedAt: string) returns (reply: Reply)
      modifies this`batches
      ensures (Database(), reply) == SqlClaimSettlement(old(Database()), session, id, claimedAt)
    {
      if Blank(claimedAt) {
        return Refused;
      }
      if !(id in batches && batches[id].id == id && batches[id].session == session && Open(batches[id].status)
           && batches[id].settlementClaim.None? && batches[id].settledAt.None? && AllTerminal(checks, id)) {
        return NotClaimed;
      }
      reply := UpdateRow({SettlementCol}, batches[id].(settlementClaim := Some(claimedAt)));
    }

    method SettleBatch(session: Id, id: Id, token: string, status: BatchStatus, aggregate: Option<Report>, at: string)
      returns (reply: Reply)
      modifies this`batches
      ensures (Database(), reply) == SqlSettle(old(Database()), session, id, token, status, aggregate, at)
    {
      if !SettleArgumentsOk(token, status, aggregate, at) {
        return Refused;
      }
      if !(id in batches && batches[id].id == id && batches[id].session == session && Open(batches[id].status)
           && batches[id].settlementClaim == Some(token) && batches[id].settledAt.None? && AllTerminal(checks, id)) {
        return Refused;
      }
      reply := UpdateRow({StatusCol, AggregateCol, SettlementCol, SettledCol},
                         batches[id].(status := status, aggregate := aggregate,
                                      settlementClaim := None, settledAt := Some(at)));
    }

    method ReleaseBatchSettlement(session: Id, id: Id, token: string) returns (reply: Reply)
      modifies this`batches
      ensures (Database(), reply) == SqlReleaseSettlement(old(Database()), session, id, token)
    {
      if Blank(token) || !(id in batches && batches[id].id == id && batches[id].session == session
                           && batches[id].settlementClaim == Some(token)
                           && Open(batches[id].status) && batches[id].settledAt.None?) {
        return Refused;
      }
      reply := UpdateRow({SettlementCol}, batches[id].(settlementClaim := None));
    }

    method TryClaimEffects(session: Id, id: Id, claimedAt: string) returns (reply: Reply)
      modifies this`batches
      ensures (Database(), reply) == SqlClaimEffects(old(Database()), session, id, claimedAt)
    {
      if Blank(claimedAt) {
        return Refused;
      }
      if !(id in batches && batches[id].id == id && batches[id].session == session && !Open(batches[id].status)
           && batches[id].settledAt.Some? && batches[id].effectsClaim.None? && batches[id].appliedAt.None?) {
        return NotClaimed;
      }
      reply := UpdateRow({EffectsCol}, batches[id].(effectsClaim := Some(claimedAt)));
    }

    method ReleaseBatchEffects(session: Id, id: Id, token: string) returns (reply: Reply)
      modifies this`batches
      ensures (Database(), reply) == SqlReleaseEffects(old(Database()), session, id, token)
    {
      if Blank(token) || !(id in batches && batches[id].id == id && batches[id].session == session
                           && batches[id].effectsClaim == Some(token) && batches[id].appliedAt.None?) {
        return Refused;
      }
      reply := UpdateRow({EffectsCol}, batches[id].(effectsClaim := None));
    }

    method MarkEffectsApplied(session: Id, id: Id, token: string, at: string) returns (reply: Reply)
      modifies this`batches
      ensures (Database(), reply) == SqlMarkApplied(old(Database()), session, id, token, at)
    {
      if Blank(token) || Blank(at)
         || !(id in batches && batches[id].id == id && batches[id].session == session
              && batches[id].effectsClaim == Some(token) && !Open(batches[id].status)
              && batches[id].settledAt.Some? && batches[id].appliedAt.None?) {
        return Refused;
      }
      reply := UpdateRow({EffectsCol, AppliedCol}, batches[id].(effectsClaim := None, appliedAt := Some(at)));
    }

    method RequestBatchRefinement(session: Id, id: Id, token: string, at: string) returns (reply: Reply)
      modifies this`batches
      ensures (Database(), reply) == SqlRequestRefinement(old(Database()), session, id, token, at)
    {
      if Blank(at) || !(id in batches && batches[id].id == id && batches[id].session == session
                        && batches[id].status == BatchSucceeded && batches[id].settledAt.Some?
                        && RejectedInSql(batches[id].aggregate)
                        && batches[id].requestedAt.None? && batches[id].boundAt.None?
                        && batches[id].effectsClaim == Some(token) && batches[id].appliedAt.None?) {
        return Refused;
      }
      reply := UpdateRow({RequestedCol}, batches[id].(requestedAt := Some(at)));
    }

    method BindBatchRefinement(session: Id, id: Id, token: string, at: string) returns (reply: Reply)
      modifies this`batches
      ensures (Database(), reply) == SqlBindRefinement(old(Database()), session, id, token, at)
    {
      if Blank(at) || !(id in batches && batches[id].id == id && batches[id].session == session
                        && batches[id].status == BatchSucceeded && batches[id].settledAt.Some?
                        && RejectedInSql(batches[id].aggregate)
                        && batches[id].requestedAt.Some? && batches[id].effectsClaim == Some(token)
                        && batches[id].boundAt.None? && batches[id].appliedAt.None?
                        && TurnBound(runs, batches[id])) {
        return Refused;
      }
      reply := UpdateRow({BoundCol, EffectsCol, AppliedCol},
                         batches[id].(boundAt := Some(at), effectsClaim := None, appliedAt := Some(at)));
    }
  }
}
