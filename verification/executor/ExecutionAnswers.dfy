/**
 What `executeReservedTool` tells a caller whose request was not granted, said on the rows the ledger holds.
 */
module ExecutionAnswers {
  import opened Prelude
  import opened Texts
  import opened Hashing
  import opened Fingerprints
  import opened LedgerModel
  import opened LedgerSpec
  import opened LedgerRows
  import opened LedgerSteps
  import opened LedgerLaws
  import opened LedgerRuns
  import opened LedgerTheorems
  import opened LedgerDecisions
  import opened ToolExecution
  import opened ExecutionPhases
  import opened ExecutionSystem
  import opened ExecutionTheorems
  import opened ExecutionOutcomes
  import Money
  import Numbers

  /** The fingerprint of a call. */
  function PrintOf(sha: Hash, call: Call): Digest { FingerprintOf(sha, call.request.components) }

  /** A final operation of the same request whose stored result has a code. */
  predicate Stores(op: Operation, fp: Digest, code: Code) {
    op.fingerprint == fp && (op.state == Settled || op.state == Refunded || op.state == OpState.Denied) && op.result == Some(Verbatim(code))
  }

  ghost predicate IsStored(ops: seq<Operation>, id: OpId, fp: Digest, code: Code) {
    exists i :: 0 <= i < |ops| && ops[i].id == id && Stores(ops[i], fp, code)
  }

  lemma UngrantedCallsEndAtOnce(sha: Hash, call: Call, s: Script, db: Db)
    requires var reply := Reserve(db, call.request, PrintOf(sha, call), s.reserve.io).reply; reply.Ok? ==> !reply.value.Granted?
    ensures var step := Reserve(db, call.request, PrintOf(sha, call), s.reserve.io);
      RunAlone(sha, Fresh(call), s, db) == (ToolExecution.Reserved(Fresh(call), step.reply, |db.ops|), step.db)
  {
    var step := Reserve(db, call.request, PrintOf(sha, call), s.reserve.io);
    var e1 := Advance(sha, Fresh(call), s.reserve, db);
    assert e1 == ToolExecution.Reserved(Fresh(call), step.reply, |db.ops|) && LedgerAfter(sha, Fresh(call), s.reserve, db) == step.db;
    RunAloneUnfolds(sha, Fresh(call), s, db);
    assert e1.pc.Done?;
  }

  lemma {:induction false} RunsKeepTheRow(sha: Hash, e: Executor, s: Script, db: Db)
    requires !e.pc.Reserving?
    ensures RunAlone(sha, e, s, db).0.row == e.row
    decreases Rank(e.pc)
  {
    if !e.pc.Done? {
      var a := AmbientAt(s, e.pc);
      RunAloneUnfolds(sha, e, s, db);
      StepKeepsTheRow(e, a, Ask(sha, e, a, db), |db.ops|);
      StepsLeaveReserving(e, a, Ask(sha, e, a, db), |db.ops|);
      RunsKeepTheRow(sha, Advance(sha, e, a, db), s, LedgerAfter(sha, e, a, db));
    }
  }

  lemma StepsLeaveReserving(e: Executor, a: Ambient, answer: Answer, rows: nat)
    ensures !Proceed(e, a, answer, rows).pc.Reserving?
  {
  }

  lemma GrantedCallsHaveTheirRow(sha: Hash, call: Call, s: Script, db: Db)
    requires var reply := Reserve(db, call.request, PrintOf(sha, call), s.reserve.io).reply; reply.Ok? && reply.value.Granted?
    ensures RunAlone(sha, Fresh(call), s, db).0.row == Some(|db.ops|)
  {
    var step := Reserve(db, call.request, PrintOf(sha, call), s.reserve.io);
    var e1 := Advance(sha, Fresh(call), s.reserve, db);
    assert e1 == ToolExecution.Reserved(Fresh(call), step.reply, |db.ops|);
    RunAloneUnfolds(sha, Fresh(call), s, db);
    RunsKeepTheRow(sha, e1, s, LedgerAfter(sha, Fresh(call), s.reserve, db));
  }

  /** What is told of the row that answers. */
  predicate CodeAnswers(op: Operation, fp: Digest, now: int, code: Code) {
    if op.fingerprint != fp then code == IdempotencyConflict
    else if InTime(op, now) then code == OperationInProgress
    else if InDoubtOrLate(op, now) then code == OperationInDoubt
    else if op.result.Some? && op.result.value.Verbatim? then code == op.result.value.code
    else code == LedgerUnavailable
  }

  /**
   A call that an earlier operation answers: nothing runs, the ledger stays as it is, and the code tells another request
   under the same id, an operation in progress, one in doubt or late, or the result that was stored.
   */
  lemma AnsweredCallsAreTold(sha: Hash, call: Call, s: Script, db: Db, i: nat)
    requires RowsInv(db.ops) && call.request.components.Valid() && !s.reserve.io.fails
    requires AnswersFor(db.ops, call.request.id, PrintOf(sha, call), i)
    ensures var (e, db') := RunAlone(sha, Fresh(call), s, db); var op := db.ops[i];
      && db' == db && e.row.None? && !e.invoked && e.pc.Done?
      && CodeAnswers(op, PrintOf(sha, call), s.reserve.io.now, e.pc.code)
  {
    EarlierOperationsAnswer(db, call.request, PrintOf(sha, call), s.reserve.io, i);
    UngrantedCallsEndAtOnce(sha, call, s, db);
  }

  /** The ledger's budgets and holds as a new call meets them. */
  ghost predicate IsGranted(db: Db, call: Call) {
    var own, held := OwnerBudget(db, call.request.components.tenant), Sum(db.ops, Held(CountedFor(call.request.components.tenant)));
    !PlatformBudget(db).stasis && !own.stasis && HasRoom(own, held, PriceOf(call))
  }

  /** The ledger cannot decide on a new call: its id is taken by another intent, or the holds are out of range. */
  ghost predicate IsUndecidable(db: Db, call: Call) {
    AuditIntent(call.request.id) in db.audit
    || (!PlatformBudget(db).stasis && Sum(db.ops, Held(CountedFor(call.request.components.tenant))) > Money.MAX_SAFE)
  }

  lemma PricesConvert(call: Call)
    requires call.request.components.Valid()
    ensures Money.ToMicrousd(Numbers.ValueOf(call.request.components.estimateMax), true, Money.Up) == Some(PriceOf(call))
  {
    Money.SchemaAmountsConvert(Numbers.ValueOf(call.request.components.estimateMax));
  }

  /** The reply to a new call. */
  lemma NewCallsAreDecided(db: Db, call: Call, fp: Digest, io: Io)
    requires call.request.components.Valid() && !io.fails && IsNew(db.ops, call.request.id, fp)
    ensures var step := Reserve(db, call.request, fp, io);
      && (step.reply.Err? <==> IsUndecidable(db, call))
      && (step.reply.Err? ==> step.db == db)
      && (step.reply.Ok? && step.reply.value.Granted? <==> !IsUndecidable(db, call) && IsGranted(db, call))
      && (step.reply.Ok? && !step.reply.value.Granted? ==>
            step.reply.value.Refused? && step.db.ops == db.ops + [step.reply.value.op]
            && step.reply.value.op.id == call.request.id && Stores(step.reply.value.op, fp, BudgetDenied))
  {
    PricesConvert(call);
    NewRequestsFailExactly(db, call.request, fp, io);
    if !IsUndecidable(db, call) {
      if PlatformBudget(db).stasis {
        NewRequestsAreAdmitted(db, call.request, fp, io);
        HaltedPlatformsAdmitNothing(db, call.request, fp, io.now, PriceOf(call));
      } else {
        NewRequestsAreGrantedExactly(db, call.request, fp, io, PriceOf(call));
      }
    }
  }

  /**
   A new call is granted a row exactly when the ledger can decide and its budgets have room. Otherwise no handler runs, and
   the caller is told that the budget refused it, which is recorded, or that the ledger is unavailable.
   */
  lemma NewCallsAreTold(sha: Hash, call: Call, s: Script, db: Db)
    requires call.request.components.Valid() && !s.reserve.io.fails && IsNew(db.ops, call.request.id, PrintOf(sha, call))
    ensures var (e, db') := RunAlone(sha, Fresh(call), s, db);
      && (e.row.Some? <==> !IsUndecidable(db, call) && IsGranted(db, call))
      && (e.row.None? ==> !e.invoked && e.pc.Done?)
      && (e.row.None? && IsUndecidable(db, call) ==> e.pc.code == LedgerUnavailable && db' == db)
      && (e.row.None? && !IsUndecidable(db, call) ==>
            && e.pc.code == BudgetDenied && |db'.ops| == |db.ops| + 1
            && db'.ops[|db.ops|].id == call.request.id && Stores(db'.ops[|db.ops|], PrintOf(sha, call), BudgetDenied))
  {
    NewCallsAreDecided(db, call, PrintOf(sha, call), s.reserve.io);
    if IsUndecidable(db, call) || !IsGranted(db, call) {
      UngrantedCallsEndAtOnce(sha, call, s, db);
    } else {
      GrantedCallsHaveTheirRow(sha, call, s, db);
    }
  }

  // ----- which codes tell what -----

  ghost predicate IsBoundElsewhere(ops: seq<Operation>, id: OpId, fp: Digest) {
    exists i :: 0 <= i < |ops| && ops[i].id == id && ops[i].fingerprint != fp
  }

  ghost predicate IsUnderWay(ops: seq<Operation>, id: OpId, fp: Digest, now: int) {
    exists i: nat :: AnswersFor(ops, id, fp, i) && ops[i].fingerprint == fp && InTime(ops[i], now)
  }

  ghost predicate IsDoubtful(ops: seq<Operation>, id: OpId, fp: Digest, now: int) {
    exists i: nat :: AnswersFor(ops, id, fp, i) && ops[i].fingerprint == fp && InDoubtOrLate(ops[i], now)
  }

  /** What each code means when no row was granted. */
  ghost predicate CodeMeans(db: Db, call: Call, fp: Digest, now: int, code: Code) {
    var ops, id := db.ops, call.request.id;
    && (code == IdempotencyConflict <==> IsBoundElsewhere(ops, id, fp) || IsStored(ops, id, fp, IdempotencyConflict))
    && (code == OperationInProgress <==> IsUnderWay(ops, id, fp, now) || IsStored(ops, id, fp, OperationInProgress))
    && (code == OperationInDoubt <==> IsDoubtful(ops, id, fp, now) || IsStored(ops, id, fp, OperationInDoubt))
    && (code == BudgetDenied <==>
          (IsNew(ops, id, fp) && !IsUndecidable(db, call) && !IsGranted(db, call)) || IsStored(ops, id, fp, BudgetDenied))
    && (SettleCode(code) || code == OperationReconciled || (RefundCode(code) && code != LedgerUnavailable) ==> IsStored(ops, id, fp, code))
    && (forall c :: IsStored(ops, id, fp, c) ==> code == c)
  }

  /** The questions about the rows of an answered request are questions about the row that answers. */
  lemma TheRowThatAnswers(ops: seq<Operation>, id: OpId, fp: Digest, now: int, i: nat)
    requires RowsInv(ops) && AnswersFor(ops, id, fp, i)
    ensures IsBoundElsewhere(ops, id, fp) <==> ops[i].fingerprint != fp
    ensures IsUnderWay(ops, id, fp, now) <==> ops[i].fingerprint == fp && InTime(ops[i], now)
    ensures IsDoubtful(ops, id, fp, now) <==> ops[i].fingerprint == fp && InDoubtOrLate(ops[i], now)
    ensures forall code :: IsStored(ops, id, fp, code) <==> Stores(ops[i], fp, code)
    ensures !IsNew(ops, id, fp)
  {
    NewOrAnswered(ops, id, fp);
    forall j: nat | j < |ops| && ops[j].id == id ensures j == i {
      assert AnswersFor(ops, id, fp, j);
    }
  }

  lemma CodesOfOneRow(op: Operation, fp: Digest, now: int, code: Code)
    requires Coherent(op) && CodeAnswers(op, fp, now, code)
    ensures code == IdempotencyConflict <==> op.fingerprint != fp || Stores(op, fp, IdempotencyConflict)
    ensures code == OperationInProgress <==> (op.fingerprint == fp && InTime(op, now)) || Stores(op, fp, OperationInProgress)
    ensures code == OperationInDoubt <==> (op.fingerprint == fp && InDoubtOrLate(op, now)) || Stores(op, fp, OperationInDoubt)
    ensures code != IdempotencyConflict && code != OperationInProgress && code != OperationInDoubt && code != LedgerUnavailable ==>
      Stores(op, fp, code)
    ensures forall c :: Stores(op, fp, c) ==> code == c
  {
  }

  lemma AnsweredCodesMean(db: Db, call: Call, fp: Digest, now: int, i: nat, code: Code)
    requires RowsInv(db.ops) && AnswersFor(db.ops, call.request.id, fp, i) && CodeAnswers(db.ops[i], fp, now, code)
    ensures CodeMeans(db, call, fp, now, code)
  {
    TheRowThatAnswers(db.ops, call.request.id, fp, now, i);
    CodesOfOneRow(db.ops[i], fp, now, code);
  }

  lemma NewCodesMean(db: Db, call: Call, fp: Digest, now: int, code: Code)
    requires IsNew(db.ops, call.request.id, fp) && (IsUndecidable(db, call) || !IsGranted(db, call))
    requires code == if IsUndecidable(db, call) then LedgerUnavailable else BudgetDenied
    ensures CodeMeans(db, call, fp, now, code)
  {
  }

  /**
   Every code a caller without a grant is told, by the rows: another request under the id, an operation of the same request
   before its deadline, one in doubt or late, a refusal by the budgets, and otherwise only what a final row has stored.
   */
  lemma UngrantedCodesTellTheRows(sha: Hash, call: Call, s: Script, db: Db)
    requires RowsInv(db.ops) && call.request.components.Valid() && !s.reserve.io.fails
    requires RunAlone(sha, Fresh(call), s, db).0.row.None?
    ensures var e := RunAlone(sha, Fresh(call), s, db).0;
      e.pc.Done? && !e.invoked && CodeMeans(db, call, PrintOf(sha, call), s.reserve.io.now, e.pc.code)
  {
    var fp := PrintOf(sha, call);
    NewOrAnswered(db.ops, call.request.id, fp);
    if i: nat :| AnswersFor(db.ops, call.request.id, fp, i) {
      AnsweredCallsAreTold(sha, call, s, db, i);
      AnsweredCodesMean(db, call, fp, s.reserve.io.now, i, RunAlone(sha, Fresh(call), s, db).0.pc.code);
    } else {
      NewCallsAreTold(sha, call, s, db);
      NewCodesMean(db, call, fp, s.reserve.io.now, RunAlone(sha, Fresh(call), s, db).0.pc.code);
    }
  }

  // ----- ledgers whose results executors write -----

  /** Nobody but executors settles or refunds. */
  predicate ExecutorsFinish(moves: seq<Move>) {
    forall k :: 0 <= k < |moves| && moves[k].Foreign? ==> !moves[k].c.CallSettle? && !moves[k].c.CallRefund?
  }

  /** The result of a row goes with its state. */
  predicate ResultFits(op: Operation) {
    && (op.state == OpState.Denied ==> op.result == Some(Verbatim(BudgetDenied)))
    && (op.result.Some? && op.result.value.Verbatim? ==>
          var code := op.result.value.code;
          match op.state
          case Settled => SettleCode(code) || code == OperationReconciled
          case Refunded => RefundCode(code) || code == OperationReconciled
          case Denied => code == BudgetDenied
          case _ => false)
  }

  ghost predicate ResultsFit(ops: seq<Operation>) {
    forall i :: 0 <= i < |ops| ==> ResultFits(ops[i])
  }

  lemma ChangesKeepResults(ops: seq<Operation>, c: RowChange, ops': seq<Operation>)
    requires ResultsFit(ops) && Changes(ops, c, ops')
    requires c.Added? ==> ResultFits(c.op)
    requires c.Moved? ==> ResultFits(c.op)
    ensures ResultsFit(ops')
  {
  }

  lemma ReserveKeepsResults(db: Db, req: Request, fp: Digest, io: Io)
    requires ResultsFit(db.ops)
    ensures ResultsFit(Reserve(db, req, fp, io).db.ops)
  {
    ReserveChanges(db, req, fp, io);
    ChangesKeepResults(db.ops, ReserveChange(db, req, fp, io), Reserve(db, req, fp, io).db.ops);
  }

  lemma StartKeepsResults(db: Db, id: OpId, fp: Digest, io: Io)
    requires RowsInv(db.ops) && ResultsFit(db.ops)
    ensures ResultsFit(StartExecution(db, id, fp, io).db.ops)
  {
    var ops' := StartExecution(db, id, fp, io).db.ops;
    StartChanges(db, id, fp, io);
    ChangesKeepResults(db.ops, RowChangeAt(db.ops, id, ops'), ops');
  }

  lemma MarkKeepsResults(db: Db, id: OpId, fp: Digest, status: AuditStatus, io: Io)
    requires RowsInv(db.ops) && ResultsFit(db.ops)
    ensures ResultsFit(MarkInDoubt(db, id, fp, status, io).db.ops)
  {
    var ops' := MarkInDoubt(db, id, fp, status, io).db.ops;
    MarkChanges(db, id, fp, status, io);
    ChangesKeepResults(db.ops, RowChangeAt(db.ops, id, ops'), ops');
  }

  lemma ReconcileKeepsResults(db: Db, req: Reconciliation, actor: Actor, io: Io)
    requires RowsInv(db.ops) && ResultsFit(db.ops)
    ensures ResultsFit(Reconcile(db, req, actor, io).db.ops)
  {
    var ops' := Reconcile(db, req, actor, io).db.ops;
    ReconcileChanges(db, req, actor, io);
    ChangesKeepResults(db.ops, RowChangeAt(db.ops, req.id, ops'), ops');
  }

  lemma {:induction false} BatchKeepsResults(db: Db, batch: nat, now: int)
    requires ResultsFit(db.ops)
    ensures ResultsFit(ExpireBatch(db, batch, now).ops)
    decreases batch
  {
    if batch > 0 && FirstOverdue(db.ops, now).Some? {
      BatchKeepsResults(ExpireOne(db, FirstOverdue(db.ops, now).value, now), batch - 1, now);
    }
  }

  lemma FinishKeepsResults(db: Db, req: Completion, target: OpState, evidence: Option<Evidence>, io: Io)
    requires RowsInv(db.ops) && ResultsFit(db.ops) && (target == Settled || target == Refunded)
    requires if target == Settled then SettleCode(req.terminal.code) else RefundCode(req.terminal.code)
    ensures ResultsFit(Finish(db, req, target, evidence, io).db.ops)
  {
    var ops' := Finish(db, req, target, evidence, io).db.ops;
    FinishChanges(db, req, target, evidence, io);
    ChangesKeepResults(db.ops, RowChangeAt(db.ops, req.id, ops'), ops');
  }

  /** A call of which the code it writes, if it writes one, goes with the state it moves to. */
  predicate WritesFit(c: Command) {
    && (c.CallSettle? ==> SettleCode(c.completion.terminal.code))
    && (c.CallRefund? ==> RefundCode(c.completion.terminal.code))
  }

  lemma CallsKeepResults(sha: Hash, db: Db, c: Command, io: Io)
    requires RowsInv(db.ops) && ResultsFit(db.ops) && WritesFit(c)
    ensures ResultsFit(Apply(sha, db, c, io).ops)
  {
    match c
    case CallReserve(req) => ReserveKeepsResults(db, req, FingerprintOf(sha, req.components), io);
    case CallSettle(req) => FinishKeepsResults(db, req, Settled, None, io);
    case CallRefund(req, evidence) => FinishKeepsResults(db, req, Refunded, evidence, io);
    case CallRecover(batch) => BatchKeepsResults(db, if io.fails then 0 else batch, io.now);
    case CallStart(id, fp) => StartKeepsResults(db, id, fp, io);
    case CallMark(id, fp, status) => MarkKeepsResults(db, id, fp, status, io);
    case CallReconcile(req, actor) => ReconcileKeepsResults(db, req, actor, io);
    case _ => GovernorCallShape(sha, db, c, io);
  }

  lemma ExecutorsWriteFittingResults(sha: Hash, e: Executor, ops: seq<Operation>)
    requires Agrees(sha, e, ops) && LedgerCall(e).Some?
    ensures WritesFit(LedgerCall(e).value)
  {
  }

  lemma {:induction false} RunsKeepResults(sha: Hash, s: Sys, moves: seq<Move>)
    requires Inv(sha, s) && ResultsFit(s.ledger.db.ops) && ExecutorsFinish(moves)
    ensures ResultsFit(Run(sha, s, moves).ledger.db.ops)
    decreases |moves|
  {
    if moves != [] {
      var m, s1 := moves[0], Take(sha, s, moves[0]);
      TakeKeepsInv(sha, s, m);
      MovesKeepResults(sha, s, m);
      RunsKeepResults(sha, s1, moves[1..]);
    }
  }

  lemma MovesKeepResults(sha: Hash, s: Sys, m: Move)
    requires Inv(sha, s) && ResultsFit(s.ledger.db.ops) && ExecutorsFinish([m])
    ensures ResultsFit(Take(sha, s, m).ledger.db.ops)
  {
    assert [m][0] == m;
    if Enabled(s, m) {
      match m
      case Spawn(_) =>
      case Advances(i, a) =>
        var e := s.execs[i];
        assert Agrees(sha, e, s.ledger.db.ops);
        if LedgerCall(e).Some? {
          ExecutorsWriteFittingResults(sha, e, s.ledger.db.ops);
          CallsKeepResults(sha, s.ledger.db, LedgerCall(e).value, a.io);
        }
      case Foreign(c, io) => CallsKeepResults(sha, s.ledger.db, c, io);
    }
  }

  ghost predicate IsSettledWith(ops: seq<Operation>, id: OpId, fp: Digest, code: Code) {
    exists i :: 0 <= i < |ops| && ops[i].id == id && ops[i].fingerprint == fp && ops[i].state == Settled && ops[i].result == Some(Verbatim(code))
  }

  ghost predicate IsRecordedDenied(ops: seq<Operation>, id: OpId, fp: Digest) {
    exists i :: 0 <= i < |ops| && ops[i].id == id && ops[i].fingerprint == fp && ops[i].state == OpState.Denied
  }

  /** What each code means without a grant, when only executors finish operations. */
  ghost predicate CodeMeansExactly(db: Db, call: Call, fp: Digest, now: int, code: Code) {
    var ops, id := db.ops, call.request.id;
    && (code == IdempotencyConflict <==> IsBoundElsewhere(ops, id, fp))
    && (code == OperationInProgress <==> IsUnderWay(ops, id, fp, now))
    && (code == OperationInDoubt <==> IsDoubtful(ops, id, fp, now))
    && (code == Success <==> IsSettledWith(ops, id, fp, Success))
    && (code == OutputValidationFailed <==> IsSettledWith(ops, id, fp, OutputValidationFailed))
    && (code == BudgetDenied <==>
          (IsNew(ops, id, fp) && !IsUndecidable(db, call) && !IsGranted(db, call)) || IsRecordedDenied(ops, id, fp))
  }

  lemma StoredCodesFit(ops: seq<Operation>, id: OpId, fp: Digest, code: Code)
    requires ResultsFit(ops)
    ensures IsStored(ops, id, fp, code) ==> code != IdempotencyConflict && code != OperationInProgress && code != OperationInDoubt
    ensures SettleCode(code) ==> (IsStored(ops, id, fp, code) <==> IsSettledWith(ops, id, fp, code))
    ensures IsStored(ops, id, fp, BudgetDenied) <==> IsRecordedDenied(ops, id, fp)
  {
    if IsSettledWith(ops, id, fp, code) {
      var i :| 0 <= i < |ops| && ops[i].id == id && ops[i].fingerprint == fp && ops[i].state == Settled && ops[i].result == Some(Verbatim(code));
      assert Stores(ops[i], fp, code);
    }
    if IsRecordedDenied(ops, id, fp) {
      var i :| 0 <= i < |ops| && ops[i].id == id && ops[i].fingerprint == fp && ops[i].state == OpState.Denied;
      assert ResultFits(ops[i]) && Stores(ops[i], fp, BudgetDenied);
    }
  }

  lemma FittingCodesMeanExactly(db: Db, call: Call, fp: Digest, now: int, code: Code)
    requires ResultsFit(db.ops) && CodeMeans(db, call, fp, now, code)
    ensures CodeMeansExactly(db, call, fp, now, code)
  {
    var ops, id := db.ops, call.request.id;
    StoredCodesFit(ops, id, fp, IdempotencyConflict);
    StoredCodesFit(ops, id, fp, OperationInProgress);
    StoredCodesFit(ops, id, fp, OperationInDoubt);
    StoredCodesFit(ops, id, fp, Success);
    StoredCodesFit(ops, id, fp, OutputValidationFailed);
  }

  /**
   In every run in which only executors finish operations, a code says exactly what the ledger holds: a caller that was
   granted nothing is told success only for an operation of the same id and request that is settled with that result.
   */
  lemma UngrantedCodesInRuns(sha: Hash, moves: seq<Move>, call: Call, s: Script)
    requires ExecutorsFinish(moves) && call.request.components.Valid() && !s.reserve.io.fails
    requires RunAlone(sha, Fresh(call), s, Run(sha, START, moves).ledger.db).0.row.None?
    ensures var db := Run(sha, START, moves).ledger.db; var e := RunAlone(sha, Fresh(call), s, db).0;
      e.pc.Done? && !e.invoked && CodeMeansExactly(db, call, PrintOf(sha, call), s.reserve.io.now, e.pc.code)
  {
    var db := Run(sha, START, moves).ledger.db;
    EveryInterleavingKeepsInv(sha, moves);
    InitialIsLawful();
    RunsKeepResults(sha, START, moves);
    UngrantedCodesTellTheRows(sha, call, s, db);
    FittingCodesMeanExactly(db, call, PrintOf(sha, call), s.reserve.io.now, RunAlone(sha, Fresh(call), s, db).0.pc.code);
  }
}
