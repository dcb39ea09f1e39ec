/**
 What an execution that nobody interferes with leaves in the audit log: one intent and one outcome, with the status that
 goes with how it ended.
 */
module ExecutionAudits {
  import opened Prelude
  import opened Texts
  import opened Hashing
  import opened Fingerprints
  import opened LedgerModel
  import opened LedgerSpec
  import opened LedgerRows
  import opened LedgerRuns
  import opened LedgerTheorems
  import opened LedgerDecisions
  import opened ToolExecution
  import opened ExecutionPhases
  import opened ExecutionSystem
  import opened ExecutionTheorems
  import opened ExecutionOutcomes

  /** The status of an end: fine for a success, blocked for a rejection and an expiry, failed for everything else. */
  function StatusAt(end: End): AuditStatus {
    match end
    case Doubt => Failed
    case Writes(_, t) =>
      if t.code == Success then Fine
      else if t.code == ApprovalDenied || t.code == ReservationExpired then Blocked
      else Failed
  }

  /** The log of an execution on its way: what was there, and once it is over the outcome. */
  predicate Logs(e: Executor, end: End, before: seq<AuditEvent>, db: Db) {
    db.audit == before + if e.pc.Done? then [AuditOutcome(e.call.request.id, StatusAt(end))] else []
  }

  lemma GrantsLogTheIntent(db: Db, req: Request, fp: Digest, io: Io)
    requires var step := Reserve(db, req, fp, io); step.reply.Ok? && step.reply.value.Granted?
    ensures Reserve(db, req, fp, io).db.audit == db.audit + [AuditIntent(req.id)]
  {
  }

  /** The step that is about to be made, in front of its row. */
  ghost predicate Ready(sha: Hash, e: Executor, s: Script, fits: bool, end: End, db: Db, i: nat) {
    && RowsInv(db.ops) && OnItsWay(sha, e, s, fits, end, db, i) && !e.pc.Done? && !AmbientAt(s, e.pc).io.fails
    && Names(db.ops, e.call.request.id, i)
  }

  lemma StartLogsNothing(sha: Hash, e: Executor, s: Script, fits: bool, end: End, db: Db, i: nat)
    requires Ready(sha, e, s, fits, end, db, i) && e.pc.Starting?
    ensures LedgerAfter(sha, e, s.start, db).audit == db.audit && !Advance(sha, e, s.start, db).pc.Done?
  {
    DispatchesExactly(db, e.call.request.id, e.pc.fp, s.start.io, i);
  }

  lemma RefundLogsTheOutcome(sha: Hash, e: Executor, s: Script, fits: bool, end: End, db: Db, i: nat)
    requires Ready(sha, e, s, fits, end, db, i) && e.pc.Refunding?
    ensures LedgerAfter(sha, e, s.refund, db).audit == db.audit + [AuditOutcome(e.call.request.id, StatusAt(end))]
    ensures Advance(sha, e, s.refund, db).pc.Done?
  {
    CompletesExactly(db, CompletionOf(e, e.pc.fp, 0, e.pc.terminal), Refunded, None, s.refund.io, i);
  }

  lemma MarkLogsTheOutcome(sha: Hash, e: Executor, s: Script, fits: bool, end: End, db: Db, i: nat)
    requires Ready(sha, e, s, fits, end, db, i) && e.pc.Marking?
    ensures LedgerAfter(sha, e, s.mark, db).audit == db.audit + [AuditOutcome(e.call.request.id, StatusAt(end))]
    ensures Advance(sha, e, s.mark, db).pc.Done?
  {
    MarksExactly(db, e.call.request.id, e.pc.fp, Failed, s.mark.io, i);
  }

  lemma SettleLogsTheOutcome(sha: Hash, e: Executor, s: Script, fits: bool, end: End, db: Db, i: nat)
    requires Ready(sha, e, s, fits, end, db, i) && e.pc.Settling?
    ensures var db', e' := LedgerAfter(sha, e, s.settle, db), Advance(sha, e, s.settle, db);
      db'.audit == db.audit + if e'.pc.Done? then [AuditOutcome(e.call.request.id, StatusAt(end))] else []
  {
    PriceIsReserved(sha, e, db.ops[i]);
    var req := CompletionOf(e, e.pc.fp, Price(e).value, e.pc.terminal);
    CompletesExactly(db, req, Settled, None, s.settle.io, i);
    SettlementNeedsRoom(db, req, s.settle.io, i);
    var step := Settle(db, req, s.settle.io);
    assert LedgerAfter(sha, e, s.settle, db) == step.db && Ask(sha, e, s.settle, db) == Row(step.reply);
  }

  lemma StepLogs(sha: Hash, e: Executor, s: Script, fits: bool, end: End, db: Db, i: nat, before: seq<AuditEvent>)
    requires Ready(sha, e, s, fits, end, db, i) && db.audit == before
    ensures var a := AmbientAt(s, e.pc); Logs(Advance(sha, e, a, db), end, before, LedgerAfter(sha, e, a, db))
  {
    var a := AmbientAt(s, e.pc);
    StepKeepsTheRow(e, a, Ask(sha, e, a, db), |db.ops|);
    if e.pc.Starting? { StartLogsNothing(sha, e, s, fits, end, db, i); }
    else if e.pc.Refunding? { RefundLogsTheOutcome(sha, e, s, fits, end, db, i); }
    else if e.pc.Marking? { MarkLogsTheOutcome(sha, e, s, fits, end, db, i); }
    else if e.pc.Settling? { SettleLogsTheOutcome(sha, e, s, fits, end, db, i); }
    else {
      QuietStepsLeaveTheLedger(sha, e, a, db);
      QuietStepsGoOn(e, a, Ask(sha, e, a, db), |db.ops|);
    }
  }

  lemma QuietStepsGoOn(e: Executor, a: Ambient, answer: Answer, rows: nat)
    requires !CallsLedger(e.pc) && !e.pc.Done?
    ensures !Proceed(e, a, answer, rows).pc.Done?
  {
  }

  lemma {:induction false} RunAloneLogs(sha: Hash, e: Executor, s: Script, fits: bool, end: End, db: Db, i: nat)
    requires RowsInv(db.ops) && OnItsWay(sha, e, s, fits, end, db, i) && Reliable(s) && !e.pc.Done?
    ensures var (e', db') := RunAlone(sha, e, s, db); db'.audit == db.audit + [AuditOutcome(e.call.request.id, StatusAt(end))]
    decreases Rank(e.pc)
  {
    var a := AmbientAt(s, e.pc);
    var e1, db1 := Advance(sha, e, a, db), LedgerAfter(sha, e, a, db);
    RunAloneUnfolds(sha, e, s, db);
    StepKeepsTheRow(e, a, Ask(sha, e, a, db), |db.ops|);
    StepLogs(sha, e, s, fits, end, db, i, db.audit);
    StepHeadsOn(sha, e, s, fits, end, db, i);
    StepKeepsRows(sha, e, a, db);
    if !e1.pc.Done? {
      assert db1.audit == db.audit;
      RunAloneLogs(sha, e1, s, fits, end, db1, i);
    }
  }

  /** A granted call that nobody interferes with writes its intent and one outcome, whose status tells how it ended. */
  lemma UndisturbedCallsAreAudited(sha: Hash, call: Call, s: Script, db: Db)
    requires RowsInv(db.ops) && Reliable(s) && RunAlone(sha, Fresh(call), s, db).0.row.Some?
    ensures RunAlone(sha, Fresh(call), s, db).1.audit
      == db.audit + [AuditIntent(call.request.id)] + [AuditOutcome(call.request.id, StatusAt(EndOn(call, s, db)))]
  {
    var e1, db1 := GrantIsTheFirstStep(sha, call, s, db);
    GrantStartsOnItsWay(sha, call, s, db);
    StepKeepsRows(sha, Fresh(call), s.reserve, db);
    StepKeepsTheRow(Fresh(call), s.reserve, Ask(sha, Fresh(call), s.reserve, db), |db.ops|);
    GrantsLogTheIntent(db, call.request, FingerprintOf(sha, call.request.components), s.reserve.io);
    RunAloneLogs(sha, e1, s, ChargeFits(db, call.request.components.tenant, PriceOf(call)), EndOn(call, s, db), db1, |db.ops|);
  }
}
