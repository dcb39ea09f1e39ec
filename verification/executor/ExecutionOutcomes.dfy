/**
 How an execution that nobody interferes with ends: which result it writes, what the caller is told, and what every later
 call with the same request is told.
 */
module ExecutionOutcomes {
  import opened Prelude
  import opened Texts
  import opened Hashing
  import opened Fingerprints
  import opened LedgerModel
  import opened LedgerSpec
  import opened LedgerRows
  import opened LedgerSteps
  import opened LedgerLaws
  import opened LedgerRuns
  import opened LedgerTheorems
  import opened ToolExecution
  import opened ExecutionPhases
  import opened ExecutionSystem
  import opened ExecutionTheorems
  import Money
  import Numbers

  /** How an execution ends: in doubt, or with a terminal result written to its row. */
  datatype End = Doubt | Writes(state: OpState, terminal: Terminal)

  // ----- the end, foretold from what the steps meet -----

  function EndOfHandler(s: Script, fits: bool): End {
    match s.wait.handler
    case Returns(valid) =>
      if fits then Writes(Settled, Terminal(if valid then Success else OutputValidationFailed, s.wait.bytes)) else Doubt
    case _ => Doubt
  }

  function EndOfInvocation(s: Script, fits: bool): End {
    if s.invoke.handler == ThrowsAtOnce then Doubt else EndOfHandler(s, fits)
  }

  function EndOfStart(call: Call, s: Script, fits: bool): End {
    if call.request.deadline <= s.start.io.now then Writes(Refunded, Terminal(ReservationExpired, s.start.bytes))
    else EndOfInvocation(s, fits)
  }

  function EndOfRecheck(call: Call, s: Script, fits: bool): End {
    if s.recheck.aborted then Writes(Refunded, Terminal(RequestCancelled, s.recheck.bytes)) else EndOfStart(call, s, fits)
  }

  function EndOfGate(call: Call, s: Script, fits: bool): End {
    if !call.gate then Writes(Refunded, Terminal(MissingGovernancePort, s.approve.bytes))
    else match s.approve.approval
      case Approves => EndOfRecheck(call, s, fits)
      case Rejects => Writes(Refunded, Terminal(ApprovalDenied, s.approve.bytes))
      case GateFails => Writes(Refunded, Terminal(ApprovalUnavailable, s.approve.bytes))
      case Interrupted => Writes(Refunded, Terminal(RequestCancelled, s.approve.bytes))
  }

  /** The end of a call whose reservation is granted; `fits` says whether the budgets can still count its charge. */
  function EndOf(call: Call, s: Script, fits: bool): End {
    if s.check.aborted then Writes(Refunded, Terminal(RequestCancelled, s.check.bytes))
    else if call.dangerous then EndOfGate(call, s, fits)
    else EndOfRecheck(call, s, fits)
  }

  /** The same from where an execution stands. */
  function EndFrom(e: Executor, s: Script, fits: bool): End {
    match e.pc
    case Reserving => EndOf(e.call, s, fits)
    case Checking(_) => EndOf(e.call, s, fits)
    case Approving(_) => EndOfGate(e.call, s, fits)
    case Rechecking(_) => EndOfRecheck(e.call, s, fits)
    case Starting(_) => EndOfStart(e.call, s, fits)
    case Invoking(_) => EndOfInvocation(s, fits)
    case Awaiting(_) => EndOfHandler(s, fits)
    case Settling(_, t) => if fits then Writes(Settled, t) else Doubt
    case Marking(_) => Doubt
    case Refunding(_, t) => Writes(Refunded, t)
    case Done(_) => Doubt
  }

  // ----- room for the charge -----

  /** The platform's budget, and the tenant's, can count a charge without leaving the safe integers. */
  predicate ChargeFits(db: Db, tenant: Option<Text>, amount: nat) {
    && SpentOf(db.budget) + amount <= Money.MAX_SAFE
    && (tenant.Some? ==> SpentOf(TenantRow(db, tenant.value)) + amount <= Money.MAX_SAFE)
  }

  lemma ChargesThatFit(db: Db, op: Operation, actual: nat)
    ensures ChargeOwners(db, op, actual).Some? <==> ChargeFits(db, op.components.tenant, actual)
  {
  }

  lemma GrantLeavesRoom(db: Db, req: Request, fp: Digest, io: Io, amount: nat)
    requires var step := Reserve(db, req, fp, io); step.reply.Ok? && step.reply.value.Granted?
    ensures ChargeFits(Reserve(db, req, fp, io).db, req.components.tenant, amount) <==> ChargeFits(db, req.components.tenant, amount)
    ensures Reserve(db, req, fp, io).reply.value.op.deadline == req.deadline
  {
  }

  // ----- each step keeps to the end foretold -----

  /** What a row holds at the end. */
  predicate Wrote(end: End, op: Operation) {
    match end
    case Doubt => op.state == InDoubt
    case Writes(state, t) => op.state == state && op.result == Some(Normalize(t))
  }

  predicate HeadsFor(e: Executor, s: Script, fits: bool, end: End, op: Operation) {
    op.deadline == e.call.request.deadline && if e.pc.Done? then Wrote(end, op) else EndFrom(e, s, fits) == end
  }

  /** An undisturbed execution on its way to an end, in front of its row and the budgets. */
  predicate OnItsWay(sha: Hash, e: Executor, s: Script, fits: bool, end: End, db: Db, i: nat) {
    && i < |db.ops| && Knows(sha, e, db.ops[i]) && Quiet(e, db.ops[i]) && HeadsFor(e, s, fits, end, db.ops[i])
    && (!e.pc.Done? ==> fits == ChargeFits(db, db.ops[i].components.tenant, db.ops[i].reserved))
  }

  lemma StartedInTime(db: Db, id: OpId, fp: Digest, io: Io, i: nat)
    requires RowsInv(db.ops) && i < |db.ops| && db.ops[i].id == id && db.ops[i].fingerprint == fp
    requires db.ops[i].state == OpState.Reserved && !io.fails
    ensures var step := StartExecution(db, id, fp, io);
      if db.ops[i].deadline > io.now then step.reply.Ok? && step.db == db.(ops := db.ops[i := Started(db.ops[i], io.now)])
      else step == Step(Err(Expired), db)
  {
    FindIdFinds(db.ops, i);
  }

  lemma StartProceeds(e: Executor, s: Script, fits: bool, end: End, reply: Reply<Operation>, rows: nat, op: Operation, op': Operation)
    requires e.pc.Starting? && HeadsFor(e, s, fits, end, op) && op'.deadline == op.deadline
    requires reply.Ok? <==> op.deadline > s.start.io.now
    requires reply.Err? ==> reply.error == Expired
    ensures HeadsFor(Proceed(e, s.start, Row(reply), rows), s, fits, end, op')
  {
  }

  lemma StartHeadsOn(sha: Hash, e: Executor, s: Script, fits: bool, end: End, db: Db, i: nat)
    requires RowsInv(db.ops) && OnItsWay(sha, e, s, fits, end, db, i) && e.pc.Starting? && !s.start.io.fails
    ensures var db' := LedgerAfter(sha, e, s.start, db);
      && |db'.ops| == |db.ops| && HeadsFor(Advance(sha, e, s.start, db), s, fits, end, db'.ops[i])
      && ChargeFits(db', db'.ops[i].components.tenant, db'.ops[i].reserved) == fits
  {
    var id, fp := e.call.request.id, e.pc.fp;
    StartedInTime(db, id, fp, s.start.io, i);
    var step := StartExecution(db, id, fp, s.start.io);
    assert LedgerAfter(sha, e, s.start, db) == step.db && Ask(sha, e, s.start, db) == Row(step.reply);
    StartProceeds(e, s, fits, end, step.reply, |db.ops|, db.ops[i], step.db.ops[i]);
  }

  lemma RefundHeadsOn(sha: Hash, e: Executor, s: Script, fits: bool, end: End, db: Db, i: nat)
    requires RowsInv(db.ops) && OnItsWay(sha, e, s, fits, end, db, i) && e.pc.Refunding? && !s.refund.io.fails
    ensures var db' := LedgerAfter(sha, e, s.refund, db);
      |db'.ops| == |db.ops| && HeadsFor(Advance(sha, e, s.refund, db), s, fits, end, db'.ops[i]) && Advance(sha, e, s.refund, db).pc.Done?
  {
    FindIdFinds(db.ops, i);
  }

  lemma MarkHeadsOn(sha: Hash, e: Executor, s: Script, fits: bool, end: End, db: Db, i: nat)
    requires RowsInv(db.ops) && OnItsWay(sha, e, s, fits, end, db, i) && e.pc.Marking? && !s.mark.io.fails
    ensures var db' := LedgerAfter(sha, e, s.mark, db);
      |db'.ops| == |db.ops| && HeadsFor(Advance(sha, e, s.mark, db), s, fits, end, db'.ops[i]) && Advance(sha, e, s.mark, db).pc.Done?
  {
    FindIdFinds(db.ops, i);
    InDoubtRows(db, i, Failed);
  }

  /** A settlement by the executor succeeds exactly when the budgets can count it. */
  lemma SettlementNeedsRoom(db: Db, req: Completion, io: Io, i: nat)
    requires RowsInv(db.ops) && i < |db.ops| && db.ops[i].id == req.id && db.ops[i].fingerprint == req.fp
    requires db.ops[i].state == Executing && !io.fails
    ensures Settle(db, req, io).reply.Ok? <==> ChargeFits(db, db.ops[i].components.tenant, req.actual)
  {
    FindIdFinds(db.ops, i);
    ChargesThatFit(db.(ops := db.ops[i := Ended(db.ops[i], Settled, req.actual, Normalize(req.terminal), None, io.now)]), db.ops[i], req.actual);
  }

  lemma SettleProceeds(e: Executor, s: Script, fits: bool, end: End, reply: Reply<Operation>, rows: nat, op: Operation, op': Operation)
    requires e.pc.Settling? && HeadsFor(e, s, fits, end, op) && op'.deadline == op.deadline
    requires reply.Ok? <==> fits
    requires reply.Ok? ==> op'.state == Settled && op'.result == Some(Normalize(e.pc.terminal))
    ensures var e' := Proceed(e, s.settle, Row(reply), rows); HeadsFor(e', s, fits, end, op') && (e'.pc.Done? <==> fits)
  {
  }

  lemma SettleHeadsOn(sha: Hash, e: Executor, s: Script, fits: bool, end: End, db: Db, i: nat)
    requires RowsInv(db.ops) && OnItsWay(sha, e, s, fits, end, db, i) && e.pc.Settling? && !s.settle.io.fails
    ensures var db', e' := LedgerAfter(sha, e, s.settle, db), Advance(sha, e, s.settle, db);
      && |db'.ops| == |db.ops| && HeadsFor(e', s, fits, end, db'.ops[i])
      && (!e'.pc.Done? ==> db' == db)
  {
    PriceIsReserved(sha, e, db.ops[i]);
    var req := CompletionOf(e, e.pc.fp, Price(e).value, e.pc.terminal);
    SettledRow(db, req, s.settle.io, i);
    SettlementNeedsRoom(db, req, s.settle.io, i);
    var step := Settle(db, req, s.settle.io);
    assert LedgerAfter(sha, e, s.settle, db) == step.db && Ask(sha, e, s.settle, db) == Row(step.reply);
    SettleProceeds(e, s, fits, end, step.reply, |db.ops|, db.ops[i], step.db.ops[i]);
  }

  lemma QuietStepHeadsOn(e: Executor, s: Script, fits: bool, end: End, answer: Answer, rows: nat, op: Operation)
    requires !CallsLedger(e.pc) && !e.pc.Done? && HeadsFor(e, s, fits, end, op)
    ensures HeadsFor(Proceed(e, AmbientAt(s, e.pc), answer, rows), s, fits, end, op)
  {
  }

  lemma StepHeadsOn(sha: Hash, e: Executor, s: Script, fits: bool, end: End, db: Db, i: nat)
    requires RowsInv(db.ops) && OnItsWay(sha, e, s, fits, end, db, i) && !e.pc.Done? && !AmbientAt(s, e.pc).io.fails
    ensures var a := AmbientAt(s, e.pc);
      OnItsWay(sha, Advance(sha, e, a, db), s, fits, end, LedgerAfter(sha, e, a, db), i)
  {
    var a := AmbientAt(s, e.pc);
    OwnStepKnows(sha, e, a, db, i);
    QuietAdvance(sha, e, a, db, i);
    if e.pc.Starting? { StartHeadsOn(sha, e, s, fits, end, db, i); }
    else if e.pc.Refunding? { RefundHeadsOn(sha, e, s, fits, end, db, i); }
    else if e.pc.Marking? { MarkHeadsOn(sha, e, s, fits, end, db, i); }
    else if e.pc.Settling? { SettleHeadsOn(sha, e, s, fits, end, db, i); }
    else {
      QuietStepsLeaveTheLedger(sha, e, a, db);
      QuietStepHeadsOn(e, s, fits, end, Ask(sha, e, a, db), |db.ops|, db.ops[i]);
    }
  }

  lemma {:induction false} RunAloneReachesItsEnd(sha: Hash, e: Executor, s: Script, fits: bool, end: End, db: Db, i: nat)
    requires RowsInv(db.ops) && OnItsWay(sha, e, s, fits, end, db, i) && Reliable(s)
    ensures var (e', db') := RunAlone(sha, e, s, db);
      e'.pc.Done? && e'.row == e.row && e'.call == e.call && OnItsWay(sha, e', s, fits, end, db', i) && RowsInv(db'.ops)
    decreases Rank(e.pc)
  {
    if !e.pc.Done? {
      var a := AmbientAt(s, e.pc);
      RunAloneUnfolds(sha, e, s, db);
      StepKeepsTheRow(e, a, Ask(sha, e, a, db), |db.ops|);
      StepHeadsOn(sha, e, s, fits, end, db, i);
      StepKeepsRows(sha, e, a, db);
      RunAloneReachesItsEnd(sha, Advance(sha, e, a, db), s, fits, end, LedgerAfter(sha, e, a, db), i);
    }
  }

  // ----- the end of an undisturbed execution -----

  /** What the caller is told at an end: the code that was written, unless the result was too large to be replayed. */
  function ToldAt(end: End): Code {
    match end
    case Doubt => OperationInDoubt
    case Writes(_, t) => if t.bytes <= MAX_RESULT_BYTES then t.code else LedgerUnavailable
  }

  /** The price of a call, if it can be reserved. */
  function PriceOf(call: Call): nat {
    match Money.ToMicrousd(Numbers.ValueOf(call.request.components.estimateMax), true, Money.Up)
    case Some(amount) => amount
    case None => 0
  }

  /** The end of a granted call on a ledger. */
  function EndOn(call: Call, s: Script, db: Db): End {
    EndOf(call, s, ChargeFits(db, call.request.components.tenant, PriceOf(call)))
  }

  lemma GrantStartsOnItsWay(sha: Hash, call: Call, s: Script, db: Db)
    requires RowsInv(db.ops) && Advance(sha, Fresh(call), s.reserve, db).row.Some?
    ensures var e1, db1 := Advance(sha, Fresh(call), s.reserve, db), LedgerAfter(sha, Fresh(call), s.reserve, db);
      && e1.row == Some(|db.ops|) && e1.pc.Checking?
      && OnItsWay(sha, e1, s, ChargeFits(db, call.request.components.tenant, PriceOf(call)), EndOn(call, s, db), db1, |db.ops|)
  {
    var e0 := Fresh(call);
    var fp := FingerprintOf(sha, call.request.components);
    GrantKnows(sha, e0, s.reserve, db);
    GrantIsQuiet(sha, e0, s.reserve, db);
    GrantLeavesRoom(db, call.request, fp, s.reserve.io, PriceOf(call));
    GrantReserves(db, call.request, fp, s.reserve.io);
  }

  lemma GrantReserves(db: Db, req: Request, fp: Digest, io: Io)
    requires var step := Reserve(db, req, fp, io); step.reply.Ok? && step.reply.value.Granted?
    ensures var step := Reserve(db, req, fp, io);
      && |step.db.ops| == |db.ops| + 1 && step.db.ops[|db.ops|] == step.reply.value.op
      && Money.ToMicrousd(Numbers.ValueOf(req.components.estimateMax), true, Money.Up) == Some(step.reply.value.op.reserved)
  {
  }

  lemma EndsAreTold(e: Executor, end: End, op: Operation)
    requires Quiet(e, op) && e.pc.Done? && Wrote(end, op) && (end.Doubt? || end.state != InDoubt)
    ensures e.pc.code == ToldAt(end)
  {
  }

  /** The result of a foretold end never has the code that stands for an unavailable ledger. */
  lemma EndsHaveCodes(call: Call, s: Script, fits: bool)
    ensures var end := EndOf(call, s, fits);
      end.Writes? ==>
        && (end.state == Settled ==> SettleCode(end.terminal.code))
        && (end.state != Settled ==> end.state == Refunded && RefundCode(end.terminal.code))
        && end.terminal.code != LedgerUnavailable
  {
  }

  lemma GrantedEndsAreForetold(sha: Hash, call: Call, s: Script, db: Db, e1: Executor, db1: Db)
    requires RowsInv(db.ops) && Reliable(s) && e1.row.Some?
    requires e1 == Advance(sha, Fresh(call), s.reserve, db) && db1 == LedgerAfter(sha, Fresh(call), s.reserve, db)
    ensures var (e, db') := RunAlone(sha, e1, s, db1);
      && e.row == Some(|db.ops|) && |db.ops| < |db'.ops| && db'.ops[|db.ops|].id == call.request.id
      && db'.ops[|db.ops|].fingerprint == FingerprintOf(sha, call.request.components)
      && Wrote(EndOn(call, s, db), db'.ops[|db.ops|]) && e.pc == Done(ToldAt(EndOn(call, s, db)))
  {
    var end, fits := EndOn(call, s, db), ChargeFits(db, call.request.components.tenant, PriceOf(call));
    GrantStartsOnItsWay(sha, call, s, db);
    StepKeepsRows(sha, Fresh(call), s.reserve, db);
    StepKeepsTheRow(Fresh(call), s.reserve, Ask(sha, Fresh(call), s.reserve, db), |db.ops|);
    RunAloneReachesItsEnd(sha, e1, s, fits, end, db1, |db.ops|);
    EndsHaveCodes(call, s, fits);
    var (e, db') := RunAlone(sha, e1, s, db1);
    EndsAreTold(e, end, db'.ops[|db.ops|]);
  }

  lemma GrantIsTheFirstStep(sha: Hash, call: Call, s: Script, db: Db) returns (e1: Executor, db1: Db)
    requires RunAlone(sha, Fresh(call), s, db).0.row.Some?
    ensures e1 == Advance(sha, Fresh(call), s.reserve, db) && db1 == LedgerAfter(sha, Fresh(call), s.reserve, db)
    ensures e1.row.Some? && RunAlone(sha, Fresh(call), s, db) == RunAlone(sha, e1, s, db1)
  {
    e1, db1 := Advance(sha, Fresh(call), s.reserve, db), LedgerAfter(sha, Fresh(call), s.reserve, db);
    RunAloneUnfolds(sha, Fresh(call), s, db);
    if e1.row.None? { UngrantedExecutionIsOver(sha, Fresh(call), s.reserve, s, db); }
  }

  /**
   When a reservation was granted, the ledger answered every call and nobody interfered, the end is the one foretold from
   what the steps met: the row holds it, and the caller is told of it. The caller is told that the ledger is unavailable
   exactly when the result that was written is larger than the replay limit.
   */
  lemma UndisturbedEndsAreForetold(sha: Hash, call: Call, s: Script, db: Db)
    requires RowsInv(db.ops) && Reliable(s)
    requires RunAlone(sha, Fresh(call), s, db).0.row.Some?
    ensures var (e, db') := RunAlone(sha, Fresh(call), s, db); var end := EndOn(call, s, db);
      && e.row == Some(|db.ops|) && |db.ops| < |db'.ops| && db'.ops[|db.ops|].id == call.request.id
      && db'.ops[|db.ops|].fingerprint == FingerprintOf(sha, call.request.components)
      && Wrote(end, db'.ops[|db.ops|]) && e.pc == Done(ToldAt(end))
      && (e.pc.code == LedgerUnavailable <==> end.Writes? && end.terminal.bytes > MAX_RESULT_BYTES)
  {
    var e1, db1 := GrantIsTheFirstStep(sha, call, s, db);
    GrantedEndsAreForetold(sha, call, s, db, e1, db1);
    EndsHaveCodes(call, s, ChargeFits(db, call.request.components.tenant, PriceOf(call)));
  }

  // ----- every later call -----

  /** An execution alone is a run of calls on the ledger. */
  lemma {:induction false} AloneIsARun(sha: Hash, e: Executor, s: Script, st: State) returns (events: seq<Event>)
    ensures After(sha, st, events).db == RunAlone(sha, e, s, st.db).1
    decreases Rank(e.pc)
  {
    if e.pc.Done? {
      events := [];
    } else {
      var a := AmbientAt(s, e.pc);
      RunAloneUnfolds(sha, e, s, st.db);
      StepsAreLedgerCalls(sha, e, a, st.db);
      match LedgerCall(e) {
        case None => events := AloneIsARun(sha, Advance(sha, e, a, st.db), s, st);
        case Some(c) =>
          var next := Next(sha, st, Event(c, a.io));
          var rest := AloneIsARun(sha, Advance(sha, e, a, st.db), s, next);
          OneCallAfterAnother(sha, st, Event(c, a.io), rest);
          events := [Event(c, a.io)] + rest;
      }
    }
  }

  /** A final row answers every later reservation with its id and its fingerprint, whatever happened in between. */
  lemma FinalRowsAreReplayed(sha: Hash, st: State, more: seq<Event>, i: nat, req: Request, io: Io)
    requires Lawful(st.db, st.history) && i < |st.db.ops| && Final(st.db.ops[i].state) && !io.fails
    requires req.components.Valid() && req.id == st.db.ops[i].id
    requires FingerprintOf(sha, req.components) == st.db.ops[i].fingerprint
    ensures var db := After(sha, st, more).db;
      Reserve(db, req, FingerprintOf(sha, req.components), io) == Step(Ok(Replay(st.db.ops[i])), db)
  {
    FinalRowsNeverChange(sha, st, more, i);
    RunKeepsLaws(sha, st, more);
    FindIdFinds(After(sha, st, more).db.ops, i);
  }

  lemma ReplaysEndAtOnce(sha: Hash, again: Call, s: Script, db: Db, op: Operation)
    requires Reserve(db, again.request, FingerprintOf(sha, again.request.components), s.reserve.io) == Step(Ok(Replay(op)), db)
    ensures RunAlone(sha, Fresh(again), s, db) == (Fresh(again).(pc := Done(ReadStored(op.result))), db)
  {
    RunAloneUnfolds(sha, Fresh(again), s, db);
  }

  /** Executing the request of a final row again runs nothing and tells the stored result. */
  lemma FinalResultsAreToldAgain(sha: Hash, st: State, more: seq<Event>, i: nat, again: Call, s: Script)
    requires Lawful(st.db, st.history) && i < |st.db.ops| && Final(st.db.ops[i].state) && !s.reserve.io.fails
    requires again.request.components.Valid() && again.request.id == st.db.ops[i].id
    requires FingerprintOf(sha, again.request.components) == st.db.ops[i].fingerprint
    ensures var db := After(sha, st, more).db;
      RunAlone(sha, Fresh(again), s, db) == (Fresh(again).(pc := Done(ReadStored(st.db.ops[i].result))), db)
  {
    FinalRowsAreReplayed(sha, st, more, i, again.request, s.reserve.io);
    ReplaysEndAtOnce(sha, again, s, After(sha, st, more).db, st.db.ops[i]);
  }

  lemma WrittenEndsAreRead(end: End, op: Operation)
    requires Wrote(end, op) && end.Writes?
    ensures ReadStored(op.result) == ToldAt(end)
  {
  }

  /**
   What an undisturbed caller was told of a written result, every later caller with the same id and request is told too,
   after whatever happened in between, and no handler runs for it: a result that was too large is unavailable for good.
   */
  lemma WrittenResultsAreToldForGood(sha: Hash, call: Call, s: Script, st: State, more: seq<Event>, again: Call, s': Script)
    returns (events: seq<Event>)
    requires Lawful(st.db, st.history) && Reliable(s) && RunAlone(sha, Fresh(call), s, st.db).0.row.Some?
    requires EndOn(call, s, st.db).Writes?
    requires again.request.id == call.request.id && again.request.components.Valid() && !s'.reserve.io.fails
    requires FingerprintOf(sha, again.request.components) == FingerprintOf(sha, call.request.components)
    ensures After(sha, st, events).db == RunAlone(sha, Fresh(call), s, st.db).1
    ensures var db := After(sha, After(sha, st, events), more).db; var (e, db') := RunAlone(sha, Fresh(again), s', db);
      && db' == db && !e.invoked && e.pc == Done(ToldAt(EndOn(call, s, st.db)))
      && (e.pc.code == LedgerUnavailable <==> EndOn(call, s, st.db).terminal.bytes > MAX_RESULT_BYTES)
  {
    events := AloneIsARun(sha, Fresh(call), s, st);
    var st1, end := After(sha, st, events), EndOn(call, s, st.db);
    RunKeepsLaws(sha, st, events);
    UndisturbedEndsAreForetold(sha, call, s, st.db);
    EndsHaveCodes(call, s, ChargeFits(st.db, call.request.components.tenant, PriceOf(call)));
    FinalResultsAreToldAgain(sha, st1, more, |st.db.ops|, again, s');
    WrittenEndsAreRead(end, st1.db.ops[|st.db.ops|]);
  }

  // ----- an oversized result -----

  /** Steps that all meet the same: no abort, an approval, a handler that returns a valid result of a size. */
  function Smoothly(now: int, bytes: nat): Script {
    var a := Ambient(Io(now, false), false, Approves, Returns(true), bytes);
    Script(a, a, a, a, a, a, a, a, a, a)
  }

  lemma FirstCallIsGranted(sha: Hash, call: Call, now: int, bytes: nat, amount: nat)
    requires Costs(call.request, amount) && amount <= DEFAULT_CAP && call.request.components.tenant.None?
    ensures Advance(sha, Fresh(call), Smoothly(now, bytes).reserve, EMPTY).row.Some?
  {
  }

  lemma GrantedRunsHaveTheirRow(sha: Hash, call: Call, s: Script, db: Db)
    requires RowsInv(db.ops) && Reliable(s) && Advance(sha, Fresh(call), s.reserve, db).row.Some?
    ensures RunAlone(sha, Fresh(call), s, db).0.row.Some?
  {
    RunAloneUnfolds(sha, Fresh(call), s, db);
    GrantedEndsAreForetold(sha, call, s, db, Advance(sha, Fresh(call), s.reserve, db), LedgerAfter(sha, Fresh(call), s.reserve, db));
  }

  lemma SmoothEnd(call: Call, now: int, bytes: nat)
    requires !call.dangerous && now < call.request.deadline
    ensures EndOf(call, Smoothly(now, bytes), true) == Writes(Settled, Terminal(Success, bytes))
  {
  }

  lemma RoomInTheBeginning(call: Call, amount: nat)
    requires Costs(call.request, amount) && amount <= DEFAULT_CAP && call.request.components.tenant.None?
    ensures ChargeFits(EMPTY, call.request.components.tenant, PriceOf(call))
  {
  }

  lemma SmoothIsReliable(now: int, bytes: nat)
    ensures Reliable(Smoothly(now, bytes))
  {
  }

  lemma SmoothRunsAreGranted(sha: Hash, call: Call, s: Script, now: int, bytes: nat, amount: nat)
    requires Costs(call.request, amount) && amount <= DEFAULT_CAP && call.request.components.tenant.None?
    requires s == Smoothly(now, bytes)
    ensures Reliable(s) && RunAlone(sha, Fresh(call), s, EMPTY).0.row.Some?
  {
    SmoothIsReliable(now, bytes);
    FirstCallIsGranted(sha, call, now, bytes, amount);
    GrantedRunsHaveTheirRow(sha, call, s, EMPTY);
  }

  /** A harmless call whose handler succeeds with too large a result is charged for, and its caller is told nothing came of it. */
  lemma OversizedSuccessIsUnavailable(sha: Hash, call: Call, now: int, bytes: nat, amount: nat)
    requires Costs(call.request, amount) && amount <= DEFAULT_CAP && call.request.components.tenant.None?
    requires !call.dangerous && now < call.request.deadline && bytes > MAX_RESULT_BYTES
    ensures var (e, db') := RunAlone(sha, Fresh(call), Smoothly(now, bytes), EMPTY);
      && e.pc == Done(LedgerUnavailable) && |db'.ops| > 0
      && db'.ops[0].state == Settled && db'.ops[0].result == Some(TooLarge)
  {
    SmoothEnd(call, now, bytes);
    RoomInTheBeginning(call, amount);
    SmoothRunsAreGranted(sha, call, Smoothly(now, bytes), now, bytes, amount);
    UndisturbedEndsAreForetold(sha, call, Smoothly(now, bytes), EMPTY);
  }
}
