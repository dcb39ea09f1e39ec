/**
 What the row of an operation looks like in each phase of the execution that owns it, whatever others do meanwhile.
 */
module ExecutionPhases {
  import opened Prelude
  import opened Texts
  import opened Hashing
  import opened Fingerprints
  import opened LedgerModel
  import opened LedgerSpec
  import opened LedgerRows
  import opened LedgerRuns
  import opened LedgerTheorems
  import opened ToolExecution
  import Money
  import Numbers

  /** A human has decided what was in doubt. */
  predicate Reconciled(op: Operation) {
    (op.state == Settled || op.state == Refunded) && op.result == Some(Verbatim(OperationReconciled)) && op.evidence.Some?
  }

  /** Granted and never dispatched: reserved, or refunded by the reaper. */
  predicate BeforeStart(op: Operation) {
    op.state == OpState.Reserved
    || (op.state == Refunded && !Dispatched(op) && op.result == Some(Verbatim(ReservationExpired)))
  }

  /** Dispatched and not decided by the executor: executing, put in doubt, or reconciled since. */
  predicate AfterStart(op: Operation) {
    op.state == Executing || op.state == InDoubt || Reconciled(op)
  }

  predicate RefundCode(code: Code) {
    code == RequestCancelled || code == MissingGovernancePort || code == ApprovalDenied || code == ApprovalUnavailable
    || code == ReservationExpired || code == LedgerUnavailable
  }

  predicate SettleCode(code: Code) { code == Success || code == OutputValidationFailed }

  /** Settled by the executor itself: for exactly what was reserved. */
  predicate SettledByExecutor(op: Operation) {
    op.state == Settled && op.settled == op.reserved
    && (op.result == Some(TooLarge) || (op.result.Some? && op.result.value.Verbatim? && SettleCode(op.result.value.code)))
  }

  /** The code of an execution that ended without calling its handler, against its row. */
  predicate EndedUnrun(code: Code, op: Operation) {
    RefundCode(code) &&
    if op.state == OpState.Reserved then code == LedgerUnavailable
    else
      && op.state == Refunded && !Dispatched(op)
      && (op.result == Some(TooLarge) || (op.result.Some? && op.result.value.Verbatim? && RefundCode(op.result.value.code)))
      && (code == LedgerUnavailable || op.result == Some(Verbatim(code)))
  }

  /** The code of an execution that ended after calling its handler, against its row. */
  predicate EndedRun(code: Code, op: Operation) {
    match code
    case Success => SettledByExecutor(op) && op.result == Some(Verbatim(Success))
    case OutputValidationFailed => SettledByExecutor(op) && op.result == Some(Verbatim(OutputValidationFailed))
    case OperationInDoubt => op.state == InDoubt || Reconciled(op)
    case OperationReconciled => op.state == Settled && Reconciled(op)
    case LedgerUnavailable => AfterStart(op) || (SettledByExecutor(op) && op.result == Some(TooLarge))
    case _ => false
  }

  /** The phases of an execution: what each program counter says about the row. */
  predicate Phase(e: Executor, op: Operation) {
    match e.pc
    case Reserving => false
    case Checking(fp) => fp == op.fingerprint && !e.invoked && BeforeStart(op)
    case Approving(fp) => fp == op.fingerprint && !e.invoked && BeforeStart(op)
    case Rechecking(fp) => fp == op.fingerprint && !e.invoked && BeforeStart(op)
    case Starting(fp) => fp == op.fingerprint && !e.invoked && BeforeStart(op)
    case Refunding(fp, t) => fp == op.fingerprint && !e.invoked && BeforeStart(op) && RefundCode(t.code)
    case Invoking(fp) => fp == op.fingerprint && !e.invoked && AfterStart(op)
    case Awaiting(fp) => fp == op.fingerprint && e.invoked && AfterStart(op)
    case Settling(fp, t) => fp == op.fingerprint && e.invoked && AfterStart(op) && SettleCode(t.code)
    case Marking(fp) => fp == op.fingerprint && e.invoked && AfterStart(op)
    case Done(code) => if e.invoked then EndedRun(code, op) else EndedUnrun(code, op)
  }

  /** What an execution with a granted row knows about that row. */
  predicate Knows(sha: Hash, e: Executor, op: Operation) {
    && op.id == e.call.request.id && op.components == e.call.request.components
    && op.fingerprint == FingerprintOf(sha, op.components)
    && Phase(e, op)
  }

  // ----- interference -----

  /** What others may do to a row they do not own: expire it, or, for a human, decide its doubt. */
  predicate Interferes(a: Operation, b: Operation) {
    b == a
    || (SameIdentity(a, b) &&
        ((a.state == OpState.Reserved && b.state == Refunded && !Dispatched(b) && b.result == Some(Verbatim(ReservationExpired)))
         || (a.state == Executing && b.state == InDoubt)
         || (a.state == InDoubt && Reconciled(b))))
  }

  /** An execution's knowledge survives interference. */
  lemma PhasesAreStable(sha: Hash, e: Executor, a: Operation, b: Operation)
    requires Knows(sha, e, a) && Interferes(a, b) && Coherent(a)
    ensures Knows(sha, e, b)
  {
  }

  lemma ExpiryInterferes(op: Operation, now: int)
    requires Coherent(op)
    ensures Interferes(op, ExpiredRow(op, now))
  {
  }

  lemma ReconciliationInterferes(db: Db, req: Reconciliation, actor: Actor, io: Io, i: nat)
    requires RowsInv(db.ops) && i < |db.ops|
    ensures var ops' := Reconcile(db, req, actor, io).db.ops; i < |ops'| && Interferes(db.ops[i], ops'[i])
  {
    ReconcileChanges(db, req, actor, io);
    var ops' := Reconcile(db, req, actor, io).db.ops;
    var c := RowChangeAt(db.ops, req.id, ops');
    if c.Moved? && c.i == i {
      ReconcileMovesDoubtOnly(db, req, actor, io, i);
      assert LegalMove(db.ops[i], ops'[i]);
    }
  }

  lemma ReconcileMovesDoubtOnly(db: Db, req: Reconciliation, actor: Actor, io: Io, i: nat)
    requires RowsInv(db.ops) && i < |db.ops| && FindId(db.ops, req.id) == Some(i)
    ensures Reconcile(db, req, actor, io).db.ops == db.ops || db.ops[i].state == InDoubt
  {
  }

  /** A command of someone who does not own a row only interferes with it. */
  lemma ForeignCommandsInterfere(sha: Hash, db: Db, c: Command, io: Io, i: nat)
    requires RowsInv(db.ops) && i < |db.ops|
    requires c.CallReconcile? || TargetOf(c) != Some(db.ops[i].id)
    ensures var ops' := Apply(sha, db, c, io).ops; i < |ops'| && Interferes(db.ops[i], ops'[i])
  {
    match c
    case CallReconcile(req, actor) => ReconciliationInterferes(db, req, actor, io, i);
    case CallReserve(req) => ReserveChanges(db, req, FingerprintOf(sha, req.components), io);
    case CallRecover(batch) =>
      ReaperDecidesByState(db, if io.fails then 0 else batch, io.now, i);
      ExpiryInterferes(db.ops[i], io.now);
    case _ =>
      if TargetOf(c).Some? {
        TargetedCallLeavesOthers(sha, db, c, io);
      } else {
        GovernorCallShape(sha, db, c, io);
      }
  }

  // ----- the owner's own steps -----

  lemma GrantKnows(sha: Hash, e: Executor, a: Ambient, db: Db)
    requires e.pc == Reserving && !e.invoked && e.row.None?
    ensures var e', ops' := Advance(sha, e, a, db), LedgerAfter(sha, e, a, db).ops;
      if e'.row.None? then e'.pc.Done? && !e'.invoked
      else e'.row == Some(|db.ops|) && |ops'| == |db.ops| + 1 && Knows(sha, e', ops'[|db.ops|])
  {
    var fp := FingerprintOf(sha, e.call.request.components);
    GrantedRow(db, e.call.request, fp, a.io);
  }

  lemma GrantedRow(db: Db, req: Request, fp: Digest, io: Io)
    ensures var step := Reserve(db, req, fp, io);
      step.reply.Ok? && step.reply.value.Granted? ==>
        && |step.db.ops| == |db.ops| + 1 && step.db.ops[|db.ops|] == step.reply.value.op
        && step.reply.value.op.id == req.id && step.reply.value.op.components == req.components
        && step.reply.value.op.fingerprint == fp && step.reply.value.op.state == OpState.Reserved
  {
  }

  lemma StartKnows(sha: Hash, e: Executor, a: Ambient, db: Db, i: nat)
    requires RowsInv(db.ops) && i < |db.ops| && e.pc.Starting? && Knows(sha, e, db.ops[i])
    ensures var ops' := LedgerAfter(sha, e, a, db).ops; |ops'| == |db.ops| && Knows(sha, Advance(sha, e, a, db), ops'[i])
  {
    FindIdFinds(db.ops, i);
  }

  lemma RefundedRow(db: Db, req: Completion, io: Io, i: nat)
    requires RowsInv(db.ops) && i < |db.ops| && db.ops[i].id == req.id && db.ops[i].fingerprint == req.fp
    ensures var step := Refund(db, req, None, io);
      && |step.db.ops| == |db.ops|
      && (step.reply.Err? ==> step.db == db)
      && (step.reply.Ok? ==> step.reply.value == step.db.ops[i])
      && (step.reply.Ok? && db.ops[i].state == Refunded ==> step.db == db)
      && (step.reply.Ok? && db.ops[i].state != Refunded ==>
            db.ops[i].state == OpState.Reserved && step.db.ops[i] == Ended(db.ops[i], Refunded, 0, Normalize(req.terminal), None, io.now))
  {
    FindIdFinds(db.ops, i);
    if Refund(db, req, None, io).reply.Ok? && db.ops[i].state == OpState.Reserved {
      ApplyTerminalMoves(db, i, Refunded, 0, Normalize(req.terminal), None, io.now);
    }
  }

  lemma RefundKnows(sha: Hash, e: Executor, a: Ambient, db: Db, i: nat)
    requires RowsInv(db.ops) && i < |db.ops| && e.pc.Refunding? && Knows(sha, e, db.ops[i])
    ensures var ops' := LedgerAfter(sha, e, a, db).ops; |ops'| == |db.ops| && Knows(sha, Advance(sha, e, a, db), ops'[i])
  {
    var req := CompletionOf(e, e.pc.fp, 0, e.pc.terminal);
    RefundedRow(db, req, a.io, i);
    var step := Refund(db, req, None, a.io);
    assert LedgerAfter(sha, e, a, db) == step.db;
    assert Ask(sha, e, a, db) == Row(step.reply);
  }

  lemma DoubtedRow(db: Db, id: OpId, fp: Digest, status: AuditStatus, io: Io, i: nat)
    requires RowsInv(db.ops) && i < |db.ops| && db.ops[i].id == id && db.ops[i].fingerprint == fp
    ensures var step := MarkInDoubt(db, id, fp, status, io);
      && |step.db.ops| == |db.ops|
      && (step.reply.Err? ==> step.db == db)
      && (step.reply.Ok? ==> step.reply.value == step.db.ops[i])
      && (step.reply.Ok? && db.ops[i].state == InDoubt ==> step.db == db)
      && (step.reply.Ok? && db.ops[i].state != InDoubt ==>
            db.ops[i].state == Executing && step.db.ops[i] == Doubted(db.ops[i]))
  {
    FindIdFinds(db.ops, i);
    if db.ops[i].state == Executing { InDoubtRows(db, i, status); }
  }

  lemma MarkKnows(sha: Hash, e: Executor, a: Ambient, db: Db, i: nat)
    requires RowsInv(db.ops) && i < |db.ops| && e.pc.Marking? && Knows(sha, e, db.ops[i])
    ensures var ops' := LedgerAfter(sha, e, a, db).ops; |ops'| == |db.ops| && Knows(sha, Advance(sha, e, a, db), ops'[i])
  {
    DoubtedRow(db, e.call.request.id, e.pc.fp, Failed, a.io, i);
    var step := MarkInDoubt(db, e.call.request.id, e.pc.fp, Failed, a.io);
    assert LedgerAfter(sha, e, a, db) == step.db;
    assert Ask(sha, e, a, db) == Row(step.reply);
  }

  /** The executor settles for the amount that was reserved. */
  lemma PriceIsReserved(sha: Hash, e: Executor, op: Operation)
    requires Knows(sha, e, op) && Coherent(op)
    ensures Price(e) == Some(op.reserved)
  {
    Money.SettlementMatchesReservation(Numbers.ValueOf(op.components.estimateMax));
  }

  lemma SettledRow(db: Db, req: Completion, io: Io, i: nat)
    requires RowsInv(db.ops) && i < |db.ops| && db.ops[i].id == req.id && db.ops[i].fingerprint == req.fp
    ensures var step := Settle(db, req, io);
      && |step.db.ops| == |db.ops|
      && (step.reply.Err? ==> step.db == db)
      && (step.reply.Ok? ==> step.reply.value == step.db.ops[i])
      && (step.reply.Ok? && db.ops[i].state == Settled ==> step.db == db)
      && (step.reply.Ok? && db.ops[i].state != Settled ==>
            db.ops[i].state == Executing && step.db.ops[i] == Ended(db.ops[i], Settled, req.actual, Normalize(req.terminal), None, io.now))
  {
    FindIdFinds(db.ops, i);
    if Settle(db, req, io).reply.Ok? && db.ops[i].state == Executing {
      ApplyTerminalMoves(db, i, Settled, req.actual, Normalize(req.terminal), None, io.now);
    }
  }

  lemma SettleKnows(sha: Hash, e: Executor, a: Ambient, db: Db, i: nat)
    requires RowsInv(db.ops) && i < |db.ops| && e.pc.Settling? && Knows(sha, e, db.ops[i])
    ensures var ops' := LedgerAfter(sha, e, a, db).ops; |ops'| == |db.ops| && Knows(sha, Advance(sha, e, a, db), ops'[i])
  {
    PriceIsReserved(sha, e, db.ops[i]);
    var req := CompletionOf(e, e.pc.fp, Price(e).value, e.pc.terminal);
    SettledRow(db, req, a.io, i);
    var step := Settle(db, req, a.io);
    assert LedgerAfter(sha, e, a, db) == step.db;
    assert Ask(sha, e, a, db) == Row(step.reply);
  }

  predicate CallsLedger(pc: Pc) {
    pc.Reserving? || pc.Starting? || pc.Settling? || pc.Marking? || pc.Refunding?
  }

  lemma QuietStepKnows(e: Executor, a: Ambient, answer: Answer, rows: nat, op: Operation)
    requires !CallsLedger(e.pc) && Phase(e, op)
    ensures Phase(Proceed(e, a, answer, rows), op) && Proceed(e, a, answer, rows).call == e.call
  {
  }

  lemma QuietStepsLeaveTheLedger(sha: Hash, e: Executor, a: Ambient, db: Db)
    requires !CallsLedger(e.pc)
    ensures LedgerAfter(sha, e, a, db) == db
  {
  }

  /** An owner's step keeps what it knows about its row. */
  lemma OwnStepKnows(sha: Hash, e: Executor, a: Ambient, db: Db, i: nat)
    requires RowsInv(db.ops) && i < |db.ops| && Knows(sha, e, db.ops[i])
    ensures var ops' := LedgerAfter(sha, e, a, db).ops; i < |ops'| && Knows(sha, Advance(sha, e, a, db), ops'[i])
  {
    if e.pc.Starting? { StartKnows(sha, e, a, db, i); }
    else if e.pc.Refunding? { RefundKnows(sha, e, a, db, i); }
    else if e.pc.Marking? { MarkKnows(sha, e, a, db, i); }
    else if e.pc.Settling? { SettleKnows(sha, e, a, db, i); }
    else {
      QuietStepsLeaveTheLedger(sha, e, a, db);
      QuietStepKnows(e, a, Ask(sha, e, a, db), |db.ops|, db.ops[i]);
    }
  }
}
