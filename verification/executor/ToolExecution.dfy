/**
 `executeReservedTool` as a machine that makes at most one atomic call on the ledger per step
 (packages/core/src/reservedToolExecution.ts). Between two steps anything else may happen to the ledger.
 */
module ToolExecution {
  import opened Prelude
  import opened Texts
  import opened Hashing
  import opened Fingerprints
  import opened LedgerModel
  import opened LedgerSpec
  import opened LedgerRuns
  import Money
  import Numbers

  /** A call of a tool: what it asks the ledger for, whether the tool is dangerous, whether there is an approval gate. */
  datatype Call = Call(request: Request, dangerous: bool, gate: bool)

  datatype ApprovalReply = Approves | Rejects | GateFails | Interrupted

  /** What becomes of a handler: it throws at once, fails, times out or is cancelled later, or returns. */
  datatype HandlerReply = ThrowsAtOnce | Ambiguous | Returns(valid: bool)

  /** What one step meets: the clock and the ledger's failure, the abort signal, the gate, the handler, the size of a result. */
  datatype Ambient = Ambient(io: Io, aborted: bool, approval: ApprovalReply, handler: HandlerReply, bytes: nat)

  datatype Pc =
    | Reserving
    | Checking(fp: Digest)
    | Approving(fp: Digest)
    | Rechecking(fp: Digest)
    | Starting(fp: Digest)
    | Invoking(fp: Digest)
    | Awaiting(fp: Digest)
    | Settling(fp: Digest, terminal: Terminal)
    | Marking(fp: Digest)
    | Refunding(fp: Digest, terminal: Terminal)
    | Done(code: Code)

  /**
   One execution. Beside its program counter it remembers, for the statements about it, the row it was granted, whether
   it was approved and whether its handler was called.
   */
  datatype Executor = Executor(call: Call, pc: Pc, row: Option<nat>, approved: bool, invoked: bool)

  function Fresh(call: Call): Executor { Executor(call, Reserving, None, false, false) }

  /** `readStoredResult`: a digest in place of a result is not a result. */
  function ReadStored(stored: Option<Stored>): Code {
    match stored
    case Some(Verbatim(code)) => code
    case _ => LedgerUnavailable
  }

  /** The status `makeSuccess` and `makeFailure` give each code. */
  function StatusOf(code: Code): AuditStatus {
    match code
    case Success => Fine
    case ApprovalDenied => Blocked
    case ReservationExpired => Blocked
    case _ => Failed
  }

  function CompletionOf(e: Executor, fp: Digest, actual: nat, t: Terminal): Completion {
    Completion(e.call.request.id, fp, actual, t, StatusOf(t.code))
  }

  /** What the executor settles for: the price of the tool, rounded up. */
  function Price(e: Executor): Option<nat> {
    Money.ExecutorMicrousd(Numbers.ValueOf(e.call.request.components.estimateMax))
  }

  /** The call on the ledger the next step makes, if it makes one. */
  function LedgerCall(e: Executor): Option<Command> {
    match e.pc
    case Reserving => Some(CallReserve(e.call.request))
    case Starting(fp) => Some(CallStart(e.call.request.id, fp))
    case Settling(fp, t) =>
      if Price(e).Some? then Some(CallSettle(CompletionOf(e, fp, Price(e).value, t))) else None
    case Marking(fp) => Some(CallMark(e.call.request.id, fp, Failed))
    case Refunding(fp, t) => Some(CallRefund(CompletionOf(e, fp, 0, t), None))
    case _ => None
  }

  /** What the ledger answers to that call. */
  datatype Answer = NoCall | Reservation(reservation: Reply<LedgerSpec.Reservation>) | Row(row: Reply<Operation>)

  function Ask(sha: Hash, e: Executor, a: Ambient, db: Db): Answer {
    var id := e.call.request.id;
    match e.pc
    case Reserving => Reservation(Reserve(db, e.call.request, FingerprintOf(sha, e.call.request.components), a.io).reply)
    case Starting(fp) => Row(StartExecution(db, id, fp, a.io).reply)
    case Settling(fp, t) =>
      if Price(e).Some? then Row(Settle(db, CompletionOf(e, fp, Price(e).value, t), a.io).reply) else NoCall
    case Marking(fp) => Row(MarkInDoubt(db, id, fp, Failed, a.io).reply)
    case Refunding(fp, t) => Row(Refund(db, CompletionOf(e, fp, 0, t), None, a.io).reply)
    case _ => NoCall
  }

  /** The ledger after that call. */
  function LedgerAfter(sha: Hash, e: Executor, a: Ambient, db: Db): Db {
    var id := e.call.request.id;
    match e.pc
    case Reserving => Reserve(db, e.call.request, FingerprintOf(sha, e.call.request.components), a.io).db
    case Starting(fp) => StartExecution(db, id, fp, a.io).db
    case Settling(fp, t) => if Price(e).Some? then Settle(db, CompletionOf(e, fp, Price(e).value, t), a.io).db else db
    case Marking(fp) => MarkInDoubt(db, id, fp, Failed, a.io).db
    case Refunding(fp, t) => Refund(db, CompletionOf(e, fp, 0, t), None, a.io).db
    case _ => db
  }

  lemma StepsAreLedgerCalls(sha: Hash, e: Executor, a: Ambient, db: Db)
    ensures LedgerAfter(sha, e, a, db) == match LedgerCall(e) case Some(c) => Apply(sha, db, c, a.io) case None => db
  {
  }

  function Reserved(e: Executor, reply: Reply<LedgerSpec.Reservation>, rows: nat): Executor {
    match reply
    case Err(_) => e.(pc := Done(LedgerUnavailable))
    case Ok(Granted(op)) => e.(pc := Checking(op.fingerprint), row := Some(rows))
    case Ok(Replay(op)) => e.(pc := Done(ReadStored(op.result)))
    case Ok(Refused(op, _)) => e.(pc := Done(ReadStored(op.result)))
    case Ok(Mismatch(_)) => e.(pc := Done(IdempotencyConflict))
    case Ok(InProgress(_)) => e.(pc := Done(OperationInProgress))
    case Ok(Doubtful(_)) => e.(pc := Done(OperationInDoubt))
  }

  /** The executor after one step, given the answer and the number of rows the ledger had. */
  function Proceed(e: Executor, a: Ambient, answer: Answer, rows: nat): Executor {
    match e.pc
    case Reserving => if answer.Reservation? then Reserved(e, answer.reservation, rows) else e.(pc := Done(LedgerUnavailable))
    case Checking(fp) =>
      if a.aborted then e.(pc := Refunding(fp, Terminal(RequestCancelled, a.bytes)))
      else if e.call.dangerous then e.(pc := Approving(fp))
      else e.(pc := Rechecking(fp))
    case Approving(fp) =>
      if !e.call.gate then e.(pc := Refunding(fp, Terminal(MissingGovernancePort, a.bytes)))
      else (match a.approval
        case Approves => e.(pc := Rechecking(fp), approved := true)
        case Rejects => e.(pc := Refunding(fp, Terminal(ApprovalDenied, a.bytes)))
        case GateFails => e.(pc := Refunding(fp, Terminal(ApprovalUnavailable, a.bytes)))
        case Interrupted => e.(pc := Refunding(fp, Terminal(RequestCancelled, a.bytes))))
    case Rechecking(fp) =>
      if a.aborted then e.(pc := Refunding(fp, Terminal(RequestCancelled, a.bytes))) else e.(pc := Starting(fp))
    case Starting(fp) =>
      if answer.Row? && answer.row.Ok? then e.(pc := Invoking(fp))
      else
        var code := if answer.Row? && answer.row.error == Expired then ReservationExpired else LedgerUnavailable;
        e.(pc := Refunding(fp, Terminal(code, a.bytes)))
    case Invoking(fp) =>
      e.(pc := if a.handler == ThrowsAtOnce then Marking(fp) else Awaiting(fp), invoked := true)
    case Awaiting(fp) =>
      (match a.handler
       case Returns(valid) => e.(pc := Settling(fp, Terminal(if valid then Success else OutputValidationFailed, a.bytes)))
       case _ => e.(pc := Marking(fp)))
    case Settling(fp, t) =>
      if answer.Row? && answer.row.Ok? then e.(pc := Done(ReadStored(answer.row.value.result))) else e.(pc := Marking(fp))
    case Marking(fp) => e.(pc := Done(if answer.Row? && answer.row.Ok? then OperationInDoubt else LedgerUnavailable))
    case Refunding(fp, t) =>
      e.(pc := Done(if answer.Row? && answer.row.Ok? then ReadStored(answer.row.value.result) else LedgerUnavailable))
    case Done(_) => e
  }

  function Advance(sha: Hash, e: Executor, a: Ambient, db: Db): Executor {
    Proceed(e, a, Ask(sha, e, a, db), |db.ops|)
  }

  // ----- an execution nobody interferes with -----

  /** What each step of one execution meets. */
  datatype Script = Script(reserve: Ambient, check: Ambient, approve: Ambient, recheck: Ambient, start: Ambient,
                           invoke: Ambient, wait: Ambient, settle: Ambient, mark: Ambient, refund: Ambient)

  function AmbientAt(s: Script, pc: Pc): Ambient {
    match pc
    case Reserving => s.reserve
    case Checking(_) => s.check
    case Approving(_) => s.approve
    case Rechecking(_) => s.recheck
    case Starting(_) => s.start
    case Invoking(_) => s.invoke
    case Awaiting(_) => s.wait
    case Settling(_, _) => s.settle
    case Marking(_) => s.mark
    case Refunding(_, _) => s.refund
    case Done(_) => s.reserve
  }

  function Rank(pc: Pc): nat {
    match pc
    case Reserving => 10
    case Checking(_) => 9
    case Approving(_) => 8
    case Rechecking(_) => 7
    case Starting(_) => 6
    case Invoking(_) => 5
    case Awaiting(_) => 4
    case Settling(_, _) => 3
    case Marking(_) => 2
    case Refunding(_, _) => 1
    case Done(_) => 0
  }

  lemma EveryStepAdvances(e: Executor, a: Ambient, answer: Answer, rows: nat)
    requires !e.pc.Done?
    ensures Rank(Proceed(e, a, answer, rows).pc) < Rank(e.pc)
  {
  }

  /** The execution run to its end without interference. */
  function RunAlone(sha: Hash, e: Executor, s: Script, db: Db): (Executor, Db)
    decreases Rank(e.pc)
  {
    if e.pc.Done? then (e, db)
    else
      var a := AmbientAt(s, e.pc);
      EveryStepAdvances(e, a, Ask(sha, e, a, db), |db.ops|);
      RunAlone(sha, Advance(sha, e, a, db), s, LedgerAfter(sha, e, a, db))
  }
}
