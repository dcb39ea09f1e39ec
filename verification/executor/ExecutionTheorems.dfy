/**
 What every interleaving of executions, reaper, humans and other clients guarantees.
 */
module ExecutionTheorems {
  import opened Prelude
  import opened Texts
  import opened Hashing
  import opened Fingerprints
  import opened LedgerModel
  import opened LedgerSpec
  import opened LedgerRows
  import opened LedgerSteps
  import opened LedgerLaws
  import opened LedgerRuns
  import opened LedgerTheorems
  import opened ToolExecution
  import opened ExecutionPhases
  import opened ExecutionSystem

  // ----- the laws of the ledger hold in the system -----

  /** The calls on the ledger that a run of the system makes. */
  function Calls(sha: Hash, s: Sys, moves: seq<Move>): seq<Event>
    decreases |moves|
  {
    if moves == [] then []
    else
      var m := moves[0];
      var first :=
        if !Enabled(s, m) then []
        else match m
          case Spawn(_) => []
          case Advances(i, a) => (match LedgerCall(s.execs[i]) case Some(c) => [Event(c, a.io)] case None => [])
          case Foreign(c, io) => [Event(c, io)];
      first + Calls(sha, Take(sha, s, m), moves[1..])
  }

  lemma OneCallAfterAnother(sha: Hash, s: State, first: Event, rest: seq<Event>)
    ensures After(sha, s, [first] + rest) == After(sha, Next(sha, s, first), rest)
  {
    assert ([first] + rest)[1..] == rest;
  }

  /** The ledger of every run of the system is the ledger of a run of calls, so every law of those holds here. */
  lemma {:induction false} SystemRunsAreLedgerRuns(sha: Hash, s: Sys, moves: seq<Move>)
    ensures Run(sha, s, moves).ledger == After(sha, s.ledger, Calls(sha, s, moves))
    decreases |moves|
  {
    if moves != [] {
      var m, s1 := moves[0], Take(sha, s, moves[0]);
      var rest := Calls(sha, s1, moves[1..]);
      SystemRunsAreLedgerRuns(sha, s1, moves[1..]);
      assert [] + rest == rest;
      if Enabled(s, m) {
        match m
        case Spawn(_) =>
        case Advances(i, a) =>
          if LedgerCall(s.execs[i]).Some? {
            OneCallAfterAnother(sha, s.ledger, Event(LedgerCall(s.execs[i]).value, a.io), rest);
          }
        case Foreign(c, io) => OneCallAfterAnother(sha, s.ledger, Event(c, io), rest);
      }
    }
  }

  // ----- handlers -----

  /** However calls are retried, a handler runs at most once per operation id. */
  lemma HandlersRunAtMostOnce(sha: Hash, moves: seq<Move>, p: nat, q: nat)
    requires var s := Run(sha, START, moves);
      p < q < |s.log| && s.log[p].WasInvoked? && s.log[q].WasInvoked?
    ensures var s := Run(sha, START, moves);
      && s.log[p].exec < |s.execs| && s.log[q].exec < |s.execs|
      && s.execs[s.log[p].exec].call.request.id != s.execs[s.log[q].exec].call.request.id
  {
    EveryInterleavingKeepsInv(sha, moves);
    var s := Run(sha, START, moves);
    assert s.log[p] != s.log[q];
    OwnersDiffer(sha, s, s.log[p].exec, s.log[q].exec);
  }

  /** A handler runs only after its operation was started, and a dangerous one was approved before that. */
  lemma HandlersRunAfterDispatchAndApproval(sha: Hash, moves: seq<Move>, p: nat)
    requires var s := Run(sha, START, moves); p < |s.log| && s.log[p].WasInvoked?
    ensures var s := Run(sha, START, moves);
      var x := s.log[p].exec;
      x < |s.execs| &&
      exists q :: 0 <= q < p && s.log[q] == WasStarted(x) &&
        (s.execs[x].call.dangerous ==> exists r :: 0 <= r < q && s.log[r] == WasApproved(x))
  {
    EveryInterleavingKeepsInv(sha, moves);
    var s := Run(sha, START, moves);
    var x := s.log[p].exec;
    assert WasStarted(x) in s.log[..p];
    var q :| 0 <= q < p && s.log[..p][q] == WasStarted(x);
    assert s.log[q].WasStarted?;
    if s.execs[x].call.dangerous {
      assert WasApproved(x) in s.log[..q];
      var r :| 0 <= r < q && s.log[..q][r] == WasApproved(x);
      assert s.log[r] == WasApproved(x);
    }
  }

  lemma StartedRow(sha: Hash, e: Executor, a: Ambient, db: Db, i: nat)
    requires RowsInv(db.ops) && i < |db.ops| && e.pc.Starting? && Knows(sha, e, db.ops[i])
    ensures Advance(sha, e, a, db).pc.Invoking? ==>
      var ops' := LedgerAfter(sha, e, a, db).ops;
      && i < |ops'| && db.ops[i].state == OpState.Reserved && ops'[i].state == Executing
      && db.ops[i].deadline > a.io.now
  {
    FindIdFinds(db.ops, i);
  }

  /** The step that is noted as a start is the one that moves the row from RESERVED to EXECUTING, before its deadline. */
  lemma StartIsTheDispatch(sha: Hash, moves: seq<Move>, i: nat, a: Ambient)
    requires var s := Run(sha, START, moves);
      i < |s.execs| && NotesOf(s.execs[i], Advance(sha, s.execs[i], a, s.ledger.db), i) == [WasStarted(i)]
    ensures var s := Run(sha, START, moves);
      var s' := Take(sha, s, Advances(i, a));
      s.execs[i].row.Some? &&
      var r := s.execs[i].row.value;
      && r < |s.ledger.db.ops| && r < |s'.ledger.db.ops|
      && s.ledger.db.ops[r].id == s.execs[i].call.request.id
      && s.ledger.db.ops[r].state == OpState.Reserved && a.io.now < s.ledger.db.ops[r].deadline
      && s'.ledger.db.ops[r].state == Executing
  {
    EveryInterleavingKeepsInv(sha, moves);
    var s := Run(sha, START, moves);
    assert Agrees(sha, s.execs[i], s.ledger.db.ops);
    NotesMean(s.execs[i], a, Ask(sha, s.execs[i], a, s.ledger.db), |s.ledger.db.ops|, i);
    AdvanceLedger(sha, s, i, a);
    StartedRow(sha, s.execs[i], a, s.ledger.db, s.execs[i].row.value);
  }

  /** In every state of every run an execution agrees with its row. */
  lemma OwnedRow(sha: Hash, moves: seq<Move>, i: nat)
    requires var s := Run(sha, START, moves); i < |s.execs| && s.execs[i].row.Some?
    ensures var s := Run(sha, START, moves);
      var r := s.execs[i].row.value;
      r < |s.ledger.db.ops| && Knows(sha, s.execs[i], s.ledger.db.ops[r]) && Coherent(s.ledger.db.ops[r])
  {
    EveryInterleavingKeepsInv(sha, moves);
    var s := Run(sha, START, moves);
    assert Agrees(sha, s.execs[i], s.ledger.db.ops);
  }

  lemma InvokedHasARow(sha: Hash, moves: seq<Move>, i: nat)
    requires var s := Run(sha, START, moves); i < |s.execs| && s.execs[i].invoked
    ensures Run(sha, START, moves).execs[i].row.Some?
  {
    EveryInterleavingKeepsInv(sha, moves);
    var s := Run(sha, START, moves);
    assert Agrees(sha, s.execs[i], s.ledger.db.ops);
  }

  lemma InvokedRow(e: Executor, op: Operation)
    requires Phase(e, op) && e.invoked
    ensures op.state == Refunded ==> Reconciled(op)
    ensures op.state != OpState.Reserved && op.state != OpState.Denied
  {
  }

  /** An operation whose handler was called is never refunded but by a human reconciliation with evidence. */
  lemma RunOperationsAreRefundedByHumansOnly(sha: Hash, moves: seq<Move>, i: nat)
    requires var s := Run(sha, START, moves); i < |s.execs| && s.execs[i].invoked
    ensures var s := Run(sha, START, moves);
      s.execs[i].row.Some? &&
      var r := s.execs[i].row.value;
      && r < |s.ledger.db.ops| && s.ledger.db.ops[r].id == s.execs[i].call.request.id
      && (s.ledger.db.ops[r].state == Refunded ==> Reconciled(s.ledger.db.ops[r]))
      && s.ledger.db.ops[r].state != OpState.Reserved && s.ledger.db.ops[r].state != OpState.Denied
  {
    var s := Run(sha, START, moves);
    InvokedHasARow(sha, moves, i);
    OwnedRow(sha, moves, i);
    InvokedRow(s.execs[i], s.ledger.db.ops[s.execs[i].row.value]);
  }

  // ----- codes -----

  /** What a code says about a row. */
  predicate CodeTells(code: Code, invoked: bool, op: Operation) {
    && (SettleCode(code) <==> op.state == Settled && op.result == Some(Verbatim(code)) && code != OperationReconciled)
    && (code == OperationInDoubt ==> op.state == InDoubt || Reconciled(op))
    && (code == OperationReconciled ==> op.state == Settled && Reconciled(op))
    && (RefundCode(code) && code != LedgerUnavailable ==>
          op.state == Refunded && op.result == Some(Verbatim(code)) && !invoked)
    && (code == LedgerUnavailable && op.state == Settled ==> op.result == Some(TooLarge) || Reconciled(op))
    && (SettleCode(code) || RefundCode(code) || code == OperationInDoubt || code == OperationReconciled)
  }

  lemma EndedPhaseTells(e: Executor, op: Operation)
    requires Phase(e, op) && e.pc.Done?
    ensures CodeTells(e.pc.code, e.invoked, op)
  {
  }

  /**
   The code an execution of its own operation answered stays true of the durable state, whatever happened before,
   in between and since. A refund code says the handler was not called; what an unavailable ledger leaves behind is
   undecided, but for a result too large to replay.
   */
  lemma CodesTellTheDurableState(sha: Hash, moves: seq<Move>, i: nat)
    requires var s := Run(sha, START, moves); i < |s.execs| && s.execs[i].row.Some? && s.execs[i].pc.Done?
    ensures var s := Run(sha, START, moves);
      var e := s.execs[i]; var r := e.row.value;
      && r < |s.ledger.db.ops| && s.ledger.db.ops[r].id == e.call.request.id
      && CodeTells(e.pc.code, e.invoked, s.ledger.db.ops[r])
  {
    var s := Run(sha, START, moves);
    OwnedRow(sha, moves, i);
    EndedPhaseTells(s.execs[i], s.ledger.db.ops[s.execs[i].row.value]);
  }

  // ----- money -----

  lemma ChargedRow(e: Executor, op: Operation)
    requires Phase(e, op) && Coherent(op)
    ensures op.settled == 0 || op.settled == op.reserved || Reconciled(op)
  {
  }

  /** An executor charges nothing or exactly what was reserved; more or less is charged only by a human. */
  lemma ExecutorsChargeTheReservation(sha: Hash, moves: seq<Move>, i: nat)
    requires var s := Run(sha, START, moves); i < |s.execs| && s.execs[i].row.Some?
    ensures var s := Run(sha, START, moves);
      var r := s.execs[i].row.value;
      r < |s.ledger.db.ops| &&
      var op := s.ledger.db.ops[r];
      op.settled == 0 || op.settled == op.reserved || Reconciled(op)
  {
    OwnedRow(sha, moves, i);
    var s := Run(sha, START, moves);
    ChargedRow(s.execs[i], s.ledger.db.ops[s.execs[i].row.value]);
  }

  /** A tenant all of whose operations belong to executors and none of which a human decided. */
  ghost predicate ExecutorDriven(s: Sys, t: Text) {
    forall r :: 0 <= r < |s.ledger.db.ops| && InScope(s.ledger.db.ops[r], Tenant(t)) ==>
      !Reconciled(s.ledger.db.ops[r]) && exists i :: 0 <= i < |s.execs| && s.execs[i].row == Some(r)
  }

  lemma ExecutorDrivenRowsDoNotOverrun(sha: Hash, moves: seq<Move>, t: Text, r: nat)
    requires var s := Run(sha, START, moves);
      ExecutorDriven(s, t) && r < |s.ledger.db.ops| && InScope(s.ledger.db.ops[r], Tenant(t))
    ensures var op := Run(sha, START, moves).ledger.db.ops[r]; op.settled <= op.reserved
  {
    var s := Run(sha, START, moves);
    var i :| 0 <= i < |s.execs| && s.execs[i].row == Some(r);
    ExecutorsChargeTheReservation(sha, moves, i);
  }

  /**
   A tenant driven by executors alone, with a cap that was never lowered and no direct spending, never spends and holds
   more than its cap.
   */
  lemma ExecutorDrivenTenantsStayWithinTheirCap(sha: Hash, moves: seq<Move>, t: Text)
    requires var s := Run(sha, START, moves);
      && ExecutorDriven(s, t)
      && At(s.ledger.history.tenantPeak, t) == CapOf(TenantRow(s.ledger.db, t)) && At(s.ledger.history.tenantDirect, t) == 0
    ensures var db := Run(sha, START, moves).ledger.db;
      SpentOf(TenantRow(db, t)) + Sum(db.ops, Held(Tenant(t))) <= CapOf(TenantRow(db, t))
  {
    var s := Run(sha, START, moves);
    SystemRunsAreLedgerRuns(sha, START, moves);
    forall r | 0 <= r < |s.ledger.db.ops| && InScope(s.ledger.db.ops[r], Tenant(t))
      ensures s.ledger.db.ops[r].settled <= s.ledger.db.ops[r].reserved
    {
      ExecutorDrivenRowsDoNotOverrun(sha, moves, t, r);
    }
    UndisturbedTenantIsWithinItsCap(sha, Calls(sha, START, moves), t);
  }

  // ----- an execution nobody interferes with -----

  /** The code that goes with a durable state. */
  function CodeOf(op: Operation): Code {
    if op.state == InDoubt then OperationInDoubt else ReadStored(op.result)
  }

  /** The ledger answers every call. */
  ghost predicate Reliable(s: Script) {
    forall pc :: !AmbientAt(s, pc).io.fails
  }

  /** A phase nobody has interfered with. */
  predicate Quiet(e: Executor, op: Operation) {
    match e.pc
    case Done(code) =>
      && code == CodeOf(op) && op.result != Some(Verbatim(LedgerUnavailable))
      && if e.invoked then SettledByExecutor(op) || op.state == InDoubt else op.state == Refunded && !Dispatched(op)
    case Settling(_, _) => op.state == Executing
    case Marking(_) => op.state == Executing
    case Awaiting(_) => op.state == Executing
    case Invoking(_) => op.state == Executing
    case Refunding(_, t) => op.state == OpState.Reserved && t.code != LedgerUnavailable
    case _ => op.state == OpState.Reserved
  }

  lemma QuietRefund(sha: Hash, e: Executor, a: Ambient, db: Db, i: nat)
    requires RowsInv(db.ops) && i < |db.ops| && Knows(sha, e, db.ops[i]) && Quiet(e, db.ops[i])
    requires e.pc.Refunding? && !a.io.fails
    ensures var ops' := LedgerAfter(sha, e, a, db).ops; i < |ops'| && Quiet(Advance(sha, e, a, db), ops'[i])
  {
    FindIdFinds(db.ops, i);
  }

  lemma QuietStart(sha: Hash, e: Executor, a: Ambient, db: Db, i: nat)
    requires RowsInv(db.ops) && i < |db.ops| && Knows(sha, e, db.ops[i]) && Quiet(e, db.ops[i])
    requires e.pc.Starting? && !a.io.fails
    ensures var ops' := LedgerAfter(sha, e, a, db).ops; i < |ops'| && Quiet(Advance(sha, e, a, db), ops'[i])
  {
    FindIdFinds(db.ops, i);
  }

  lemma QuietMark(sha: Hash, e: Executor, a: Ambient, db: Db, i: nat)
    requires RowsInv(db.ops) && i < |db.ops| && Knows(sha, e, db.ops[i]) && Quiet(e, db.ops[i])
    requires e.pc.Marking? && !a.io.fails
    ensures var ops' := LedgerAfter(sha, e, a, db).ops; i < |ops'| && Quiet(Advance(sha, e, a, db), ops'[i])
  {
    FindIdFinds(db.ops, i);
    InDoubtRows(db, i, Failed);
  }

  lemma QuietSettle(sha: Hash, e: Executor, a: Ambient, db: Db, i: nat)
    requires RowsInv(db.ops) && i < |db.ops| && Knows(sha, e, db.ops[i]) && Quiet(e, db.ops[i])
    requires e.pc.Settling?
    ensures var ops' := LedgerAfter(sha, e, a, db).ops; i < |ops'| && Quiet(Advance(sha, e, a, db), ops'[i])
  {
    PriceIsReserved(sha, e, db.ops[i]);
    var req := CompletionOf(e, e.pc.fp, Price(e).value, e.pc.terminal);
    SettledRow(db, req, a.io, i);
    var step := Settle(db, req, a.io);
    assert LedgerAfter(sha, e, a, db) == step.db;
    assert Ask(sha, e, a, db) == Row(step.reply);
  }

  lemma QuietStep(e: Executor, a: Ambient, answer: Answer, rows: nat, op: Operation)
    requires !CallsLedger(e.pc) && !e.pc.Done? && Phase(e, op) && Quiet(e, op)
    ensures Quiet(Proceed(e, a, answer, rows), op)
  {
  }

  lemma QuietAdvance(sha: Hash, e: Executor, a: Ambient, db: Db, i: nat)
    requires RowsInv(db.ops) && i < |db.ops| && Knows(sha, e, db.ops[i]) && Quiet(e, db.ops[i])
    requires !e.pc.Done? && !a.io.fails
    ensures var ops' := LedgerAfter(sha, e, a, db).ops; i < |ops'| && Quiet(Advance(sha, e, a, db), ops'[i])
  {
    if e.pc.Starting? { QuietStart(sha, e, a, db, i); }
    else if e.pc.Refunding? { QuietRefund(sha, e, a, db, i); }
    else if e.pc.Marking? { QuietMark(sha, e, a, db, i); }
    else if e.pc.Settling? { QuietSettle(sha, e, a, db, i); }
    else {
      QuietStepsLeaveTheLedger(sha, e, a, db);
      QuietStep(e, a, Ask(sha, e, a, db), |db.ops|, db.ops[i]);
    }
  }

  lemma TargetedStepKeepsRows(sha: Hash, e: Executor, a: Ambient, db: Db)
    requires RowsInv(db.ops) && !e.pc.Reserving? && LedgerCall(e).Some?
    ensures RowsInv(LedgerAfter(sha, e, a, db).ops)
  {
    var ops' := LedgerAfter(sha, e, a, db).ops;
    var id := e.call.request.id;
    if e.pc.Starting? { StartChanges(db, id, e.pc.fp, a.io); }
    else if e.pc.Settling? { FinishChanges(db, CompletionOf(e, e.pc.fp, Price(e).value, e.pc.terminal), Settled, None, a.io); }
    else if e.pc.Marking? { MarkChanges(db, id, e.pc.fp, Failed, a.io); }
    else { FinishChanges(db, CompletionOf(e, e.pc.fp, 0, e.pc.terminal), Refunded, None, a.io); }
    ChangeKeepsRows(db.ops, RowChangeAt(db.ops, id, ops'), ops');
  }

  lemma StepKeepsRows(sha: Hash, e: Executor, a: Ambient, db: Db)
    requires RowsInv(db.ops)
    ensures RowsInv(LedgerAfter(sha, e, a, db).ops)
  {
    if e.pc.Reserving? {
      var fp := FingerprintOf(sha, e.call.request.components);
      ReserveChanges(db, e.call.request, fp, a.io);
      ChangeKeepsRows(db.ops, ReserveChange(db, e.call.request, fp, a.io), LedgerAfter(sha, e, a, db).ops);
    } else if LedgerCall(e).Some? {
      TargetedStepKeepsRows(sha, e, a, db);
    } else {
      assert LedgerAfter(sha, e, a, db) == db;
    }
  }

  lemma RunAloneUnfolds(sha: Hash, e: Executor, s: Script, db: Db)
    requires !e.pc.Done?
    ensures var a := AmbientAt(s, e.pc);
      && RunAlone(sha, e, s, db) == RunAlone(sha, Advance(sha, e, a, db), s, LedgerAfter(sha, e, a, db))
      && Rank(Advance(sha, e, a, db).pc) < Rank(e.pc)
  {
    EveryStepAdvances(e, AmbientAt(s, e.pc), Ask(sha, e, AmbientAt(s, e.pc), db), |db.ops|);
  }

  lemma {:induction false} RunAloneStaysQuiet(sha: Hash, e: Executor, s: Script, db: Db, i: nat)
    requires RowsInv(db.ops) && i < |db.ops| && Knows(sha, e, db.ops[i]) && Quiet(e, db.ops[i]) && Reliable(s)
    ensures var (e', db') := RunAlone(sha, e, s, db);
      && e'.row == e.row && e'.call == e.call && e'.pc.Done?
      && i < |db'.ops| && Knows(sha, e', db'.ops[i]) && Quiet(e', db'.ops[i]) && Coherent(db'.ops[i])
    decreases Rank(e.pc)
  {
    if !e.pc.Done? {
      var a := AmbientAt(s, e.pc);
      var e1, db1 := Advance(sha, e, a, db), LedgerAfter(sha, e, a, db);
      RunAloneUnfolds(sha, e, s, db);
      StepKeepsTheRow(e, a, Ask(sha, e, a, db), |db.ops|);
      OwnStepKnows(sha, e, a, db, i);
      QuietAdvance(sha, e, a, db, i);
      StepKeepsRows(sha, e, a, db);
      RunAloneStaysQuiet(sha, e1, s, db1, i);
    }
  }

  lemma GrantIsQuiet(sha: Hash, e: Executor, a: Ambient, db: Db)
    requires e.pc == Reserving && Advance(sha, e, a, db).row.Some? && e.row.None?
    ensures var ops' := LedgerAfter(sha, e, a, db).ops;
      |db.ops| < |ops'| && Quiet(Advance(sha, e, a, db), ops'[|db.ops|])
  {
    GrantedRow(db, e.call.request, FingerprintOf(sha, e.call.request.components), a.io);
  }

  /** What an undisturbed execution leaves behind. */
  predicate EndsQuietly(e: Executor, op: Operation) {
    && e.pc.Done? && e.pc.code == CodeOf(op)
    && (op.state == Settled || op.state == InDoubt || op.state == Refunded)
    && (e.invoked <==> op.state != Refunded)
    && (op.state == Settled ==> op.settled == op.reserved && (SettleCode(e.pc.code) || op.result == Some(TooLarge)))
    && (op.state == InDoubt <==> e.pc.code == OperationInDoubt)
    && (op.state == Refunded ==> RefundCode(e.pc.code))
    && (e.pc.code == LedgerUnavailable <==> op.result == Some(TooLarge))
  }

  lemma QuietEnd(e: Executor, op: Operation)
    requires Phase(e, op) && Quiet(e, op) && e.pc.Done? && Coherent(op)
    ensures EndsQuietly(e, op)
  {
  }

  lemma UngrantedExecutionIsOver(sha: Hash, e: Executor, a: Ambient, s: Script, db: Db)
    requires e.pc == Reserving && e.row.None? && !e.invoked && Advance(sha, e, a, db).row.None?
    ensures RunAlone(sha, Advance(sha, e, a, db), s, LedgerAfter(sha, e, a, db)).0.row.None?
  {
    GrantKnows(sha, e, a, db);
  }

  /**
   When a reservation was granted, the ledger answered every call and nobody interfered, the code is a function of the
   durable state: settled, in doubt or refunded, with the handler called exactly when it is not refunded. The caller is
   told that the ledger is unavailable exactly when the result was too large to keep.
   */
  lemma UndisturbedCodeIsTheDurableState(sha: Hash, call: Call, s: Script, db: Db)
    requires RowsInv(db.ops) && Reliable(s)
    requires RunAlone(sha, Fresh(call), s, db).0.row.Some?
    ensures var (e, db') := RunAlone(sha, Fresh(call), s, db);
      && e.row.value < |db'.ops| && db'.ops[e.row.value].id == call.request.id
      && EndsQuietly(e, db'.ops[e.row.value])
  {
    var e0 := Fresh(call);
    var e1, db1 := Advance(sha, e0, s.reserve, db), LedgerAfter(sha, e0, s.reserve, db);
    RunAloneUnfolds(sha, e0, s, db);
    if e1.row.None? {
      UngrantedExecutionIsOver(sha, e0, s.reserve, s, db);
    }
    UndisturbedGrant(sha, e0, s, db);
  }

  lemma UndisturbedGrant(sha: Hash, e0: Executor, s: Script, db: Db)
    requires RowsInv(db.ops) && Reliable(s) && e0.pc == Reserving && e0.row.None? && !e0.invoked
    requires Advance(sha, e0, s.reserve, db).row.Some?
    ensures var (e, db') := RunAlone(sha, Advance(sha, e0, s.reserve, db), s, LedgerAfter(sha, e0, s.reserve, db));
      && e.row.Some? && e.row.value < |db'.ops| && db'.ops[e.row.value].id == e0.call.request.id
      && EndsQuietly(e, db'.ops[e.row.value])
  {
    var e1, db1 := Advance(sha, e0, s.reserve, db), LedgerAfter(sha, e0, s.reserve, db);
    GrantKnows(sha, e0, s.reserve, db);
    StepKeepsRows(sha, e0, s.reserve, db);
    GrantIsQuiet(sha, e0, s.reserve, db);
    StepKeepsTheRow(e0, s.reserve, Ask(sha, e0, s.reserve, db), |db.ops|);
    RunAloneStaysQuiet(sha, e1, s, db1, |db.ops|);
    var (e, db') := RunAlone(sha, e1, s, db1);
    QuietEnd(e, db'.ops[|db.ops|]);
  }
}
