/**
 `executeReservedTool` in its own form: ordered calls on the ledger object, the gate and the handler, with branches on
 what each of them did. Run without interference it is the machine of ToolExecution, step for step.
 */
module ToolExecutor {
  import opened Prelude
  import opened Hashing
  import opened LedgerModel
  import opened LedgerSpec
  import opened LedgerRuns
  import opened BudgetLedger
  import opened ToolExecution
  import opened ExecutionTheorems

  class ToolExecutor {
    const ledger: SqliteBudgetLedger

    constructor (ledger: SqliteBudgetLedger)
      ensures this.ledger == ledger
    {
      this.ledger := ledger;
    }

    /** The machine run to its end from where an execution stands. */
    ghost predicate EndsAs(e: Executor, s: Script, before: Db, code: Code, after: Db) {
      RunAlone(ledger.sha, e, s, before).0.pc == Done(code) && RunAlone(ledger.sha, e, s, before).1 == after
    }

    /** `refundReserved`. */
    method RefundReserved(call: Call, fp: Digest, terminal: Terminal, s: Script, ghost e: Executor) returns (code: Code)
      requires e.call == call && e.pc == Refunding(fp, terminal)
      modifies ledger.store
      ensures EndsAs(e, s, old(ledger.store.db), code, ledger.store.db)
    {
      RunAloneUnfolds(ledger.sha, e, s, ledger.store.db);
      var reply := ledger.Refund(Completion(call.request.id, fp, 0, terminal, StatusOf(terminal.code)), None, s.refund.io);
      code := if reply.Ok? then ReadStored(reply.value.result) else LedgerUnavailable;
    }

    /** `markExecutionInDoubt`, and the same call after a settlement that could not be confirmed. */
    method MarkExecutionInDoubt(call: Call, fp: Digest, s: Script, ghost e: Executor) returns (code: Code)
      requires e.call == call && e.pc == Marking(fp)
      modifies ledger.store
      ensures EndsAs(e, s, old(ledger.store.db), code, ledger.store.db)
    {
      RunAloneUnfolds(ledger.sha, e, s, ledger.store.db);
      var reply := ledger.MarkInDoubt(call.request.id, fp, Failed, s.mark.io);
      code := if reply.Ok? then OperationInDoubt else LedgerUnavailable;
    }

    /** `settleReserved`. */
    method SettleReserved(call: Call, fp: Digest, terminal: Terminal, s: Script, ghost e: Executor) returns (code: Code)
      requires e.call == call && e.pc == Settling(fp, terminal)
      modifies ledger.store
      ensures EndsAs(e, s, old(ledger.store.db), code, ledger.store.db)
    {
      ghost var db := ledger.store.db;
      RunAloneUnfolds(ledger.sha, e, s, db);
      var actual := Price(Fresh(call));
      if actual.Some? {
        var reply := ledger.Settle(Completion(call.request.id, fp, actual.value, terminal, StatusOf(terminal.code)), s.settle.io);
        if reply.Ok? {
          return ReadStored(reply.value.result);
        }
      }
      code := MarkExecutionInDoubt(call, fp, s, Advance(ledger.sha, e, s.settle, db));
    }

    /** `requestApproval`: the code of the refusal, if it is refused. */
    method RequestApproval(call: Call, s: Script) returns (refusal: Option<Code>)
      ensures forall e: Executor, answer: Answer, rows: nat :: e.call == call && e.pc.Approving? ==>
        Proceed(e, s.approve, answer, rows).pc == (match refusal
          case Some(code) => Refunding(e.pc.fp, Terminal(code, s.approve.bytes))
          case None => Rechecking(e.pc.fp))
    {
      if !call.gate {
        return Some(MissingGovernancePort);
      }
      match s.approve.approval {
        case Approves => refusal := None;
        case Rejects => refusal := Some(ApprovalDenied);
        case GateFails => refusal := Some(ApprovalUnavailable);
        case Interrupted => refusal := Some(RequestCancelled);
      }
    }

    /** From the dispatch on. */
    method Dispatch(call: Call, fp: Digest, s: Script, ghost e: Executor) returns (code: Code)
      requires e.call == call && e.pc == Starting(fp)
      modifies ledger.store
      ensures EndsAs(e, s, old(ledger.store.db), code, ledger.store.db)
    {
      RunAloneUnfolds(ledger.sha, e, s, ledger.store.db);
      ghost var e1 := Advance(ledger.sha, e, s.start, ledger.store.db);
      var reply := ledger.StartExecution(call.request.id, fp, s.start.io);
      if reply.Err? {
        var refused := if reply.error == Expired then ReservationExpired else LedgerUnavailable;
        code := RefundReserved(call, fp, Terminal(refused, s.start.bytes), s, e1);
      } else {
        code := RunHandler(call, fp, s, e1);
      }
    }

    /** The handler and what follows from it. */
    method RunHandler(call: Call, fp: Digest, s: Script, ghost e: Executor) returns (code: Code)
      requires e.call == call && e.pc == Invoking(fp)
      modifies ledger.store
      ensures EndsAs(e, s, old(ledger.store.db), code, ledger.store.db)
    {
      ghost var db := ledger.store.db;
      RunAloneUnfolds(ledger.sha, e, s, db);
      ghost var e1 := Advance(ledger.sha, e, s.invoke, db);
      if s.invoke.handler == ThrowsAtOnce {
        code := MarkExecutionInDoubt(call, fp, s, e1);
        return;
      }
      RunAloneUnfolds(ledger.sha, e1, s, db);
      ghost var e2 := Advance(ledger.sha, e1, s.wait, db);
      match s.wait.handler {
        case Returns(valid) =>
          var terminal := Terminal(if valid then Success else OutputValidationFailed, s.wait.bytes);
          code := SettleReserved(call, fp, terminal, s, e2);
        case _ =>
          code := MarkExecutionInDoubt(call, fp, s, e2);
      }
    }

    /** From the grant of the reservation on. */
    method RunGranted(call: Call, fp: Digest, s: Script, ghost e: Executor) returns (code: Code)
      requires e.call == call && e.pc == Checking(fp)
      modifies ledger.store
      ensures EndsAs(e, s, old(ledger.store.db), code, ledger.store.db)
    {
      ghost var db := ledger.store.db;
      RunAloneUnfolds(ledger.sha, e, s, db);
      ghost var e1 := Advance(ledger.sha, e, s.check, db);
      if s.check.aborted {
        code := RefundReserved(call, fp, Terminal(RequestCancelled, s.check.bytes), s, e1);
        return;
      }
      ghost var e2 := e1;
      if call.dangerous {
        RunAloneUnfolds(ledger.sha, e1, s, db);
        e2 := Advance(ledger.sha, e1, s.approve, db);
        var refusal := RequestApproval(call, s);
        if refusal.Some? {
          code := RefundReserved(call, fp, Terminal(refusal.value, s.approve.bytes), s, e2);
          return;
        }
      }
      RunAloneUnfolds(ledger.sha, e2, s, db);
      ghost var e3 := Advance(ledger.sha, e2, s.recheck, db);
      if s.recheck.aborted {
        code := RefundReserved(call, fp, Terminal(RequestCancelled, s.recheck.bytes), s, e3);
        return;
      }
      code := Dispatch(call, fp, s, e3);
    }

    /** The reservation, and the execution after it. */
    method RequestReservation(call: Call, s: Script) returns (reply: Reply<LedgerSpec.Reservation>, ghost e: Executor)
      modifies ledger.store
      ensures e == ToolExecution.Reserved(Fresh(call), reply, |old(ledger.store.db).ops|)
      ensures RunAlone(ledger.sha, Fresh(call), s, old(ledger.store.db)) == RunAlone(ledger.sha, e, s, ledger.store.db)
    {
      ghost var db := ledger.store.db;
      reply := ledger.Reserve(call.request, s.reserve.io);
      e := ReservationIsTheFirstStep(ledger.sha, call, s, db, reply, ledger.store.db);
    }

    /** What follows from the ledger's answer to the reservation. */
    method ProceedFrom(call: Call, reply: Reply<LedgerSpec.Reservation>, s: Script, ghost e: Executor, ghost rows: nat)
      returns (code: Code)
      requires e == ToolExecution.Reserved(Fresh(call), reply, rows)
      modifies ledger.store
      ensures EndsAs(e, s, old(ledger.store.db), code, ledger.store.db)
    {
      match reply {
        case Err(_) => code := LedgerUnavailable;
        case Ok(reservation) =>
          match reservation {
            case Replay(op) => code := ReadStored(op.result);
            case Refused(op, _) => code := ReadStored(op.result);
            case Mismatch(_) => code := IdempotencyConflict;
            case InProgress(_) => code := OperationInProgress;
            case Doubtful(_) => code := OperationInDoubt;
            case Granted(op) => code := RunGranted(call, op.fingerprint, s, e);
          }
      }
    }

    method ExecuteReservedTool(call: Call, s: Script) returns (code: Code)
      modifies ledger.store
      ensures EndsAs(Fresh(call), s, old(ledger.store.db), code, ledger.store.db)
    {
      ghost var rows: nat := |ledger.store.db.ops|;
      var reply, e := RequestReservation(call, s);
      code := ProceedFrom(call, reply, s, e, rows);
    }
  }

  /** An execution begins with its reservation. */
  lemma ReservationIsTheFirstStep(sha: Hash, call: Call, s: Script, db: Db, reply: Reply<LedgerSpec.Reservation>, after: Db)
    returns (e: Executor)
    requires Step(reply, after) == LedgerSpec.Reserve(db, call.request, FingerprintOf(sha, call.request.components), s.reserve.io)
    ensures e == ToolExecution.Reserved(Fresh(call), reply, |db.ops|)
    ensures RunAlone(sha, Fresh(call), s, db) == RunAlone(sha, e, s, after)
  {
    e := ToolExecution.Reserved(Fresh(call), reply, |db.ops|);
    RunAloneUnfolds(sha, Fresh(call), s, db);
  }
}
