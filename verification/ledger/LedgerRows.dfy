/**
 What every step of the ledger keeps about its rows: identities, the life cycle with its journal, one active
 operation per fingerprint.
 */
module LedgerRows {
  import opened Prelude
  import opened Texts
  import opened Hashing
  import opened Fingerprints
  import opened LedgerModel
  import opened LedgerSpec
  import Money
  import Numbers

  ghost predicate DistinctIds(ops: seq<Operation>) {
    forall i, j :: 0 <= i < j < |ops| ==> ops[i].id != ops[j].id
  }

  ghost predicate UniqueActive(ops: seq<Operation>) {
    forall i, j :: 0 <= i < j < |ops| && Active(ops[i].state) && Active(ops[j].state)
      ==> ops[i].fingerprint != ops[j].fingerprint
  }

  /** The journals a life can leave behind, with their amounts. */
  predicate JournalTells(op: Operation) {
    var r, x, d := Entry(ReservedEntry, op.reserved), Entry(ExecutingEntry, 0), Entry(InDoubtEntry, op.reserved);
    var s, f := Entry(SettledEntry, op.settled), Entry(RefundedEntry, 0);
    match op.state
    case Reserved => op.journal == [r]
    case Executing => op.journal == [r, x]
    case InDoubt => op.journal == [r, x, d]
    case Settled => op.journal == [r, x, s] || op.journal == [r, x, d, s]
    case Refunded => op.journal == [r, f] || op.journal == [r, x, f] || op.journal == [r, x, d, f]
    case Denied => op.journal == [Entry(DeniedEntry, op.reserved)]
  }

  predicate Dispatched(op: Operation) {
    |op.journal| >= 2 && op.journal[1].kind == ExecutingEntry
  }

  /** The row agrees with its journal: the CHECK constraints of its table and what its fields say. */
  predicate Coherent(op: Operation) {
    && JournalTells(op)
    && (op.state != Settled ==> op.settled == 0)
    && (op.terminalAt.Some? <==> Final(op.state))
    && (op.result.Some? <==> Final(op.state))
    && (op.startedAt.Some? <==> Dispatched(op))
    && (op.state == Refunded && Dispatched(op) ==> op.evidence.Some?)
    && op.reserved <= Money.MAX_SAFE
    && Money.ToMicrousd(Numbers.ValueOf(op.components.estimateMax), true, Money.Up) == Some(op.reserved)
  }

  /** The transitions the trigger governance_budget_transition_guard lets through. */
  predicate Allowed(a: OpState, b: OpState) {
    match a
    case Reserved => b == Executing || b == Refunded
    case Executing => b == Settled || b == Refunded || b == InDoubt
    case InDoubt => b == Settled || b == Refunded
    case _ => false
  }

  predicate SameIdentity(a: Operation, b: Operation) {
    && a.id == b.id && a.components == b.components && a.fingerprint == b.fingerprint
    && a.reserved == b.reserved && a.deadline == b.deadline && a.createdAt == b.createdAt
  }

  /** One transition of one row. */
  predicate LegalMove(a: Operation, b: Operation) {
    && SameIdentity(a, b)
    && Allowed(a.state, b.state)
    && |b.journal| == |a.journal| + 1 && a.journal <= b.journal
    && (a.startedAt.Some? ==> b.startedAt == a.startedAt)
    && (a.state == InDoubt ==> b.result == Some(Verbatim(OperationReconciled)) && b.evidence.Some?)
    && Coherent(b)
  }

  ghost predicate RowsInv(ops: seq<Operation>) {
    && DistinctIds(ops)
    && UniqueActive(ops)
    && (forall i :: 0 <= i < |ops| ==> Coherent(ops[i]))
  }

  /** What one step may do to the rows: nothing, add a fresh one, or move one. */
  datatype RowChange = Same | Added(op: Operation) | Moved(i: nat, op: Operation)

  ghost predicate Changes(ops: seq<Operation>, c: RowChange, ops': seq<Operation>) {
    match c
    case Same => ops' == ops
    case Added(op) =>
      && ops' == ops + [op] && FindId(ops, op.id).None? && Coherent(op)
      && (op.state == Reserved || op.state == Denied)
      && (Active(op.state) ==> FindActive(ops, op.fingerprint).None?)
    case Moved(i, op) => i < |ops| && ops' == ops[i := op] && LegalMove(ops[i], op)
  }

  lemma ChangeKeepsRows(ops: seq<Operation>, c: RowChange, ops': seq<Operation>)
    requires RowsInv(ops) && Changes(ops, c, ops')
    ensures RowsInv(ops')
  {
    match c
    case Same =>
    case Added(op) =>
      forall i, j | 0 <= i < j < |ops'| ensures ops'[i].id != ops'[j].id { }
    case Moved(i, op) =>
      forall j, k | 0 <= j < k < |ops'| ensures ops'[j].id != ops'[k].id {
        assert ops[j].id != ops[k].id;
      }
      forall j, k | 0 <= j < k < |ops'| && Active(ops'[j].state) && Active(ops'[k].state)
        ensures ops'[j].fingerprint != ops'[k].fingerprint
      {
        assert Active(ops[j].state) && Active(ops[k].state);
      }
  }

  // ----- sums under a change -----

  lemma SumOfAdded(ops: seq<Operation>, op: Operation, m: Measure)
    ensures Sum(ops + [op], m) == Sum(ops, m) + Weigh(op, m)
  {
    assert (ops + [op])[..|ops|] == ops;
  }

  lemma {:induction false} SumOfMoved(ops: seq<Operation>, i: nat, op: Operation, m: Measure)
    requires i < |ops|
    ensures Sum(ops[i := op], m) == Sum(ops, m) - Weigh(ops[i], m) + Weigh(op, m)
  {
    var last := |ops| - 1;
    if i == last {
      assert ops[i := op][..last] == ops[..last];
    } else {
      SumOfMoved(ops[..last], i, op, m);
      assert ops[i := op][..last] == ops[..last][i := op];
    }
  }

  lemma {:induction false} SumOfPart(ops: seq<Operation>, s: Scope)
    ensures Sum(ops, Held(s)) <= Sum(ops, Held(Everyone))
    ensures Sum(ops, Charged(s)) <= Sum(ops, Charged(Everyone))
  {
    if ops != [] { SumOfPart(ops[..|ops| - 1], s); }
  }

  // ----- which change each step makes -----

  lemma FinalRowsAre(db: Db, i: nat, state: OpState, actual: nat, stored: Stored, evidence: Option<Evidence>, now: int)
    requires i < |db.ops| && Coherent(db.ops[i])
    requires state == Settled || state == Refunded
    requires Allowed(db.ops[i].state, state) && (state == Refunded ==> actual == 0)
    requires state == Refunded && Dispatched(db.ops[i]) ==> evidence.Some?
    requires db.ops[i].state == InDoubt ==> stored == Verbatim(OperationReconciled) && evidence.Some?
    ensures LegalMove(db.ops[i], Ended(db.ops[i], state, actual, stored, evidence, now))
  {
    var a, b := db.ops[i], Ended(db.ops[i], state, actual, stored, evidence, now);
    assert b.journal[..|a.journal|] == a.journal;
  }

  lemma ApplyTerminalMoves(db: Db, i: nat, state: OpState, actual: nat, stored: Stored, evidence: Option<Evidence>, now: int)
    requires i < |db.ops|
    requires ApplyTerminal(db, i, state, actual, stored, evidence, now).Some?
    ensures var r := ApplyTerminal(db, i, state, actual, stored, evidence, now).value;
      r.ops == db.ops[i := Ended(db.ops[i], state, actual, stored, evidence, now)] && r.audit == db.audit
  {
  }

  lemma InDoubtMoves(db: Db, i: nat, status: AuditStatus)
    requires i < |db.ops| && Coherent(db.ops[i]) && db.ops[i].state == Executing
    ensures LegalMove(db.ops[i], Doubted(db.ops[i]))
    ensures ApplyInDoubt(db, i, status).ops == db.ops[i := Doubted(db.ops[i])]
  {
  }

  function ReserveChange(db: Db, req: Request, fp: Digest, io: Io): RowChange {
    var step := Reserve(db, req, fp, io);
    if |step.db.ops| > |db.ops| then Added(step.db.ops[|db.ops|]) else Same
  }

  lemma ReserveChanges(db: Db, req: Request, fp: Digest, io: Io)
    ensures Changes(db.ops, ReserveChange(db, req, fp, io), Reserve(db, req, fp, io).db.ops)
  {
    if req.components.Valid() && !io.fails && FindId(db.ops, req.id).None? && FindActive(db.ops, fp).None? {
      var price := Money.ToMicrousd(Numbers.ValueOf(req.components.estimateMax), true, Money.Up);
      if Admit(db, req, fp, io.now).Some? {
        var reserved := price.value;
        var ops' := Admit(db, req, fp, io.now).value.db.ops;
        assert ops' == db.ops + [DeniedOperation(req, fp, reserved, io.now)]
            || ops' == db.ops + [NewOperation(req, fp, reserved, io.now)];
        assert Coherent(NewOperation(req, fp, reserved, io.now));
        assert Coherent(DeniedOperation(req, fp, reserved, io.now));
      }
    }
  }

  lemma StartMoves(op: Operation, now: int)
    requires Coherent(op) && op.state == Reserved
    ensures LegalMove(op, Started(op, now))
  {
  }

  /** The row change of a step on the row with an id: that row moved, or nothing. */
  function RowChangeAt(ops: seq<Operation>, id: OpId, ops': seq<Operation>): RowChange {
    match FindId(ops, id)
    case None => Same
    case Some(i) => if i < |ops'| && ops'[i] != ops[i] then Moved(i, ops'[i]) else Same
  }

  lemma StartChanges(db: Db, id: OpId, fp: Digest, io: Io)
    requires RowsInv(db.ops)
    ensures Changes(db.ops, RowChangeAt(db.ops, id, StartExecution(db, id, fp, io).db.ops), StartExecution(db, id, fp, io).db.ops)
  {
    var i := FindId(db.ops, id);
    if StartExecution(db, id, fp, io).reply.Ok? { StartMoves(db.ops[i.value], io.now); }
  }

  lemma FinishChanges(db: Db, req: Completion, target: OpState, evidence: Option<Evidence>, io: Io)
    requires RowsInv(db.ops) && (target == Settled || target == Refunded)
    ensures var ops' := Finish(db, req, target, evidence, io).db.ops;
      Changes(db.ops, RowChangeAt(db.ops, req.id, ops'), ops')
  {
    var step := Finish(db, req, target, evidence, io);
    if step.reply.Ok? && step.db.ops != db.ops {
      var i := FindId(db.ops, req.id).value;
      var actual := if target == Settled then req.actual else 0;
      ApplyTerminalMoves(db, i, target, actual, Normalize(req.terminal), evidence, io.now);
      FinalRowsAre(db, i, target, actual, Normalize(req.terminal), evidence, io.now);
    }
  }

  lemma MarkChanges(db: Db, id: OpId, fp: Digest, status: AuditStatus, io: Io)
    requires RowsInv(db.ops)
    ensures var ops' := MarkInDoubt(db, id, fp, status, io).db.ops;
      Changes(db.ops, RowChangeAt(db.ops, id, ops'), ops')
  {
    var i := FindId(db.ops, id);
    if i.Some? && db.ops[i.value].state == Executing { InDoubtMoves(db, i.value, status); }
  }

  lemma ReconcileChanges(db: Db, req: Reconciliation, actor: Actor, io: Io)
    requires RowsInv(db.ops)
    ensures var ops' := Reconcile(db, req, actor, io).db.ops;
      Changes(db.ops, RowChangeAt(db.ops, req.id, ops'), ops')
  {
    var step := Reconcile(db, req, actor, io);
    if step.reply.Ok? && step.db.ops != db.ops {
      var i := FindId(db.ops, req.id).value;
      var actual, target := ResolvedAmount(req.resolution).value, ResolvedState(req.resolution);
      ApplyTerminalMoves(db, i, target, actual, Verbatim(OperationReconciled), Some(req.evidence), io.now);
      FinalRowsAre(db, i, target, actual, Verbatim(OperationReconciled), Some(req.evidence), io.now);
    }
  }

  function ExpireChange(db: Db, i: nat, now: int): RowChange
    requires i < |db.ops|
  {
    var op := db.ops[i];
    if !Overdue(op, now) then Same
    else if op.state == Reserved then Moved(i, Ended(op, Refunded, 0, Verbatim(ReservationExpired), None, now))
    else Moved(i, Doubted(op))
  }

  lemma ExpireChanges(db: Db, i: nat, now: int)
    requires RowsInv(db.ops) && i < |db.ops|
    ensures Changes(db.ops, ExpireChange(db, i, now), ExpireOne(db, i, now).ops)
  {
    if Overdue(db.ops[i], now) {
      if db.ops[i].state == Reserved {
        FinalRowsAre(db, i, Refunded, 0, Verbatim(ReservationExpired), None, now);
      } else {
        InDoubtMoves(db, i, Failed);
      }
    }
  }
}
