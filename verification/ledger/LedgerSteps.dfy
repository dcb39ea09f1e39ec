/**
 What each step of the ledger does to the audit log, to the budgets and to STASIS, told by the row it changes.
 */
module LedgerSteps {
  import opened Prelude
  import opened Texts
  import opened Hashing
  import opened Fingerprints
  import opened LedgerModel
  import opened LedgerSpec
  import opened LedgerRows
  import Money
  import Numbers

  predicate Undecided(s: OpState) { s == Reserved || s == Executing }

  /** Every operation has its budget rows: a refused one may lack its tenant's. */
  ghost predicate RowsExist(db: Db) {
    && (db.ops != [] ==> db.budget.Some?)
    && (forall i :: 0 <= i < |db.ops| && db.ops[i].state != Denied && db.ops[i].components.tenant.Some?
          ==> db.ops[i].components.tenant.value in db.tenants)
  }

  // ----- audit -----

  /** Audit rows a step writes: an intent with a new operation, an outcome when it is decided, a pair for a human. */
  ghost predicate Audited(db: Db, c: RowChange, db': Db) {
    match c
    case Same => db'.audit == db.audit
    case Added(op) =>
      && !HasIntent(db.audit, op.id)
      && db'.audit == db.audit + [AuditIntent(op.id)] + (if op.state == Denied then [AuditOutcome(op.id, Blocked)] else [])
    case Moved(i, op) =>
      if i >= |db.ops| then false
      else if op.state == Executing then db'.audit == db.audit
      else if db.ops[i].state == InDoubt then
        exists x :: !HasIntent(db.audit, x) && db'.audit == db.audit + [AuditIntent(x), AuditOutcome(x, Fine)]
      else exists s :: db'.audit == db.audit + [AuditOutcome(op.id, s)]
  }

  // ----- budgets -----

  function TenantRow(db: Db, t: Text): Option<Budget> {
    if t in db.tenants then Some(db.tenants[t]) else None
  }

  /** What a change charges to a scope. */
  function ChargeOf(c: RowChange, s: Scope): nat {
    if c.Moved? && c.op.state == Settled && InScope(c.op, s) then c.op.settled else 0
  }

  /** A budget row keeps its cap, appears empty, and takes exactly the charge. */
  predicate TakesCharge(b: Option<Budget>, charge: nat, b': Option<Budget>) {
    match b
    case Some(row) => b'.Some? && b'.value.cap == row.cap && b'.value.spent == row.spent + charge
    case None => if b'.Some? then b'.value.spent == charge else charge == 0
  }

  /** The budget a reservation is held against, and whose holds count against it. */
  function OwnerScope(op: Operation): Scope {
    match op.components.tenant { case Some(t) => Tenant(t) case None => Everyone }
  }

  function OwnerRow(db: Db, op: Operation): Option<Budget> {
    match op.components.tenant { case Some(t) => TenantRow(db, t) case None => db.budget }
  }

  /** A granted reservation fits under its owner's cap, and neither its owner nor the platform is halted. */
  predicate Fits(db: Db, c: RowChange, db': Db) {
    c.Added? && c.op.state == Reserved ==>
      && db'.budget.Some? && !db'.budget.value.stasis
      && OwnerRow(db', c.op).Some?
      && var b := OwnerRow(db', c.op).value;
         !b.stasis && (c.op.reserved == 0 || b.spent + Sum(db.ops, Held(OwnerScope(c.op))) + c.op.reserved <= b.cap)
  }

  ghost predicate Budgeted(db: Db, c: RowChange, db': Db) {
    && TakesCharge(db.budget, ChargeOf(c, Everyone), db'.budget)
    && (forall t :: TakesCharge(TenantRow(db, t), ChargeOf(c, Tenant(t)), TenantRow(db', t)))
    && Fits(db, c, db')
  }

  // ----- STASIS -----

  predicate Halted(b: Option<Budget>) { b.Some? && b.value.stasis }

  /** A step of the ledger never lifts STASIS, and an operation that goes in doubt halts its owner. */
  ghost predicate Halts(db: Db, c: RowChange, db': Db) {
    && (Halted(db.budget) ==> Halted(db'.budget))
    && (forall t :: Halted(TenantRow(db, t)) ==> Halted(TenantRow(db', t)))
    && (c.Moved? && c.op.state == InDoubt ==> Halted(OwnerRow(db', c.op)))
  }

  /** The rows of the result exist whenever the rows of the source did. */
  ghost predicate Rowed(db: Db, c: RowChange, db': Db) {
    && (db.budget.Some? ==> db'.budget.Some?)
    && (forall t :: t in db.tenants ==> t in db'.tenants)
    && (c.Added? ==> db'.budget.Some?)
    && (c.Added? && c.op.state == Reserved && c.op.components.tenant.Some? ==> c.op.components.tenant.value in db'.tenants)
  }

  /** A step of the ledger, by the row it changes. */
  ghost predicate LedgerStep(db: Db, c: RowChange, db': Db) {
    && Changes(db.ops, c, db'.ops)
    && Audited(db, c, db')
    && Budgeted(db, c, db')
    && Halts(db, c, db')
    && Rowed(db, c, db')
  }

  // ----- reserve -----

  lemma DecideSteps(db: Db, db3: Db, req: Request, fp: Digest, reserved: nat, now: int, scope: Scope, b: Budget)
    requires db3.ops == db.ops && db3.audit == db.audit + [AuditIntent(req.id)] && !HasIntent(db.audit, req.id)
    requires db3.budget.Some? && !db3.budget.value.stasis
    requires scope == (match req.components.tenant case Some(t) => Tenant(t) case None => Everyone)
    requires req.components.tenant.Some? ==> TenantRow(db3, req.components.tenant.value) == Some(b)
    requires req.components.tenant.None? ==> db3.budget == Some(b)
    requires Budgeted(db, Same, db3) && Halts(db, Same, db3) && Rowed(db, Same, db3)
    requires Decide(db3, req, fp, reserved, now, b, scope).Some?
    ensures var db' := Decide(db3, req, fp, reserved, now, b, scope).value.db;
      |db'.ops| == |db.ops| + 1 &&
      var c := Added(db'.ops[|db.ops|]);
      Audited(db, c, db') && Budgeted(db, c, db') && Halts(db, c, db') && Rowed(db, c, db')
  {
    var db' := Decide(db3, req, fp, reserved, now, b, scope).value.db;
    var c := Added(db'.ops[|db.ops|]);
    forall t ensures TakesCharge(TenantRow(db, t), 0, TenantRow(db', t)) {
      assert TakesCharge(TenantRow(db, t), 0, TenantRow(db3, t));
    }
    forall t | Halted(TenantRow(db, t)) ensures Halted(TenantRow(db', t)) {
      assert Halted(TenantRow(db3, t));
    }
    assert db'.audit == db.audit + [AuditIntent(req.id)] + (if c.op.state == Denied then [AuditOutcome(req.id, Blocked)] else []);
  }

  lemma AdmitSteps(db: Db, req: Request, fp: Digest, now: int)
    requires Admit(db, req, fp, now).Some?
    ensures var db' := Admit(db, req, fp, now).value.db;
      |db'.ops| == |db.ops| + 1 &&
      var c := Added(db'.ops[|db.ops|]);
      Audited(db, c, db') && Budgeted(db, c, db') && Halts(db, c, db') && Rowed(db, c, db')
  {
    var reserved := Money.ToMicrousd(Numbers.ValueOf(req.components.estimateMax), true, Money.Up).value;
    var db1 := EnsureBudget(db);
    var db2 := db1.(audit := db1.audit + [AuditIntent(req.id)]);
    var b := db2.budget.value;
    if b.stasis {
      var db' := Admit(db, req, fp, now).value.db;
      assert db' == Deny(db2, req, fp, reserved, now, TripReason(b)).db;
      forall t ensures TakesCharge(TenantRow(db, t), 0, TenantRow(db', t)) { }
    } else {
      match req.components.tenant
      case Some(t) =>
        var db3 := EnsureTenant(db2, t);
        forall u ensures TakesCharge(TenantRow(db, u), 0, TenantRow(db3, u)) { }
        DecideSteps(db, db3, req, fp, reserved, now, Tenant(t), db3.tenants[t]);
      case None =>
        forall u ensures TakesCharge(TenantRow(db, u), 0, TenantRow(db2, u)) { }
        DecideSteps(db, db2, req, fp, reserved, now, Everyone, b);
    }
  }

  lemma NothingHappens(db: Db)
    ensures LedgerStep(db, Same, db)
  {
    forall t ensures TakesCharge(TenantRow(db, t), 0, TenantRow(db, t)) { }
  }

  lemma ReserveSteps(db: Db, req: Request, fp: Digest, io: Io)
    ensures LedgerStep(db, ReserveChange(db, req, fp, io), Reserve(db, req, fp, io).db)
  {
    ReserveChanges(db, req, fp, io);
    NothingHappens(db);
    if req.components.Valid() && !io.fails && FindId(db.ops, req.id).None? && FindActive(db.ops, fp).None?
       && Admit(db, req, fp, io.now).Some? {
      AdmitSteps(db, req, fp, io.now);
    }
  }

  // ----- completion -----

  lemma ChargeTakes(b: Budget, actual: nat, reserved: nat, capped: bool)
    requires Charge(b, actual, reserved, capped).Some?
    ensures TakesCharge(Some(b), actual, Charge(b, actual, reserved, capped))
    ensures b.stasis ==> Charge(b, actual, reserved, capped).value.stasis
  {
  }

  lemma ChargeOwnersSteps(db: Db, op: Operation, actual: nat)
    requires db.budget.Some? && (op.components.tenant.Some? ==> op.components.tenant.value in db.tenants)
    requires ChargeOwners(db, op, actual).Some?
    ensures var db' := ChargeOwners(db, op, actual).value;
      && db'.ops == db.ops && db'.audit == db.audit
      && TakesCharge(db.budget, actual, db'.budget)
      && (Halted(db.budget) ==> Halted(db'.budget))
      && (forall t :: TakesCharge(TenantRow(db, t), if op.components.tenant == Some(t) then actual else 0, TenantRow(db', t)))
      && (forall t :: Halted(TenantRow(db, t)) ==> Halted(TenantRow(db', t)))
  {
    ChargeTakes(db.budget.value, actual, op.reserved, op.components.tenant.None?);
    if op.components.tenant.Some? {
      ChargeTakes(db.tenants[op.components.tenant.value], actual, op.reserved, true);
    }
  }

  lemma ApplyTerminalSteps(db: Db, i: nat, state: OpState, actual: nat, stored: Stored, evidence: Option<Evidence>, now: int)
    requires i < |db.ops| && RowsExist(db) && db.ops[i].state != Denied
    requires state == Settled || state == Refunded
    requires ApplyTerminal(db, i, state, actual, stored, evidence, now).Some?
    ensures var db' := ApplyTerminal(db, i, state, actual, stored, evidence, now).value;
      var c := Moved(i, Ended(db.ops[i], state, actual, stored, evidence, now));
      Budgeted(db, c, db') && Halts(db, c, db') && Rowed(db, c, db')
  {
    var c := Moved(i, Ended(db.ops[i], state, actual, stored, evidence, now));
    var db1 := db.(ops := db.ops[i := c.op]);
    var db' := ApplyTerminal(db, i, state, actual, stored, evidence, now).value;
    if state == Settled { ChargeOwnersSteps(db1, db.ops[i], actual); }
    forall t ensures TakesCharge(TenantRow(db, t), ChargeOf(c, Tenant(t)), TenantRow(db', t)) {
      assert TenantRow(db1, t) == TenantRow(db, t);
    }
    forall t | Halted(TenantRow(db, t)) ensures Halted(TenantRow(db', t)) {
      assert TenantRow(db1, t) == TenantRow(db, t);
    }
    forall t | t in db.tenants ensures t in db'.tenants {
      assert TakesCharge(TenantRow(db, t), ChargeOf(c, Tenant(t)), TenantRow(db', t));
    }
  }

  lemma AuditKeepsSteps(db: Db, c: RowChange, db1: Db, audit: seq<AuditEvent>)
    requires Budgeted(db, c, db1) && Halts(db, c, db1) && Rowed(db, c, db1)
    ensures var db' := db1.(audit := audit); Budgeted(db, c, db') && Halts(db, c, db') && Rowed(db, c, db')
  {
    var db' := db1.(audit := audit);
    forall t ensures TenantRow(db', t) == TenantRow(db1, t) { }
    forall t ensures TakesCharge(TenantRow(db, t), ChargeOf(c, Tenant(t)), TenantRow(db', t)) {
      assert TakesCharge(TenantRow(db, t), ChargeOf(c, Tenant(t)), TenantRow(db1, t));
    }
    forall t | Halted(TenantRow(db, t)) ensures Halted(TenantRow(db', t)) {
      assert Halted(TenantRow(db1, t));
    }
  }

  lemma TripSteps(db: Db, op: Operation, code: TripCode, ops: seq<Operation>, c: RowChange)
    requires c.Moved? && c.op.state == InDoubt && c.op.components == op.components
    requires OwnerRow(db, op).Some?
    ensures var db' := TripOwner(db.(ops := ops), op, code);
      db'.ops == ops && db'.audit == db.audit && Budgeted(db, c, db') && Halts(db, c, db') && Rowed(db, c, db')
  {
    var db' := TripOwner(db.(ops := ops), op, code);
    forall t ensures TakesCharge(TenantRow(db, t), 0, TenantRow(db', t)) { }
  }

  lemma InDoubtSteps(db: Db, i: nat, status: AuditStatus)
    requires RowsInv(db.ops) && RowsExist(db) && i < |db.ops| && db.ops[i].state == Executing
    ensures LedgerStep(db, Moved(i, Doubted(db.ops[i])), ApplyInDoubt(db, i, status))
  {
    var op := db.ops[i];
    var c := Moved(i, Doubted(op));
    InDoubtMoves(db, i, status);
    TripSteps(db, op, ComplianceDrift, db.ops[i := Doubted(op)], c);
    var db1 := TripOwner(db.(ops := db.ops[i := Doubted(op)]), op, ComplianceDrift);
    AuditKeepsSteps(db, c, db1, db1.audit + [AuditOutcome(op.id, status)]);
  }

  lemma StartSteps(db: Db, id: OpId, fp: Digest, io: Io)
    requires RowsInv(db.ops) && RowsExist(db)
    ensures var db' := StartExecution(db, id, fp, io).db; LedgerStep(db, RowChangeAt(db.ops, id, db'.ops), db')
  {
    StartChanges(db, id, fp, io);
    NothingHappens(db);
    var db' := StartExecution(db, id, fp, io).db;
    forall t ensures TakesCharge(TenantRow(db, t), 0, TenantRow(db', t)) { }
  }

  lemma FinishSteps(db: Db, req: Completion, target: OpState, evidence: Option<Evidence>, io: Io)
    requires RowsInv(db.ops) && RowsExist(db) && (target == Settled || target == Refunded)
    ensures var db' := Finish(db, req, target, evidence, io).db; LedgerStep(db, RowChangeAt(db.ops, req.id, db'.ops), db')
  {
    FinishChanges(db, req, target, evidence, io);
    NothingHappens(db);
    var step := Finish(db, req, target, evidence, io);
    var found := FindId(db.ops, req.id);
    if step.reply.Ok? && db.ops[found.value].state != target {
      var i := found.value;
      var actual := if target == Settled then req.actual else 0;
      var stored := Normalize(req.terminal);
      var db1 := ApplyTerminal(db, i, target, actual, stored, evidence, io.now).value;
      ApplyTerminalMoves(db, i, target, actual, stored, evidence, io.now);
      ApplyTerminalSteps(db, i, target, actual, stored, evidence, io.now);
      AuditKeepsSteps(db, Moved(i, Ended(db.ops[i], target, actual, stored, evidence, io.now)), db1,
                      db1.audit + [AuditOutcome(req.id, req.status)]);
    }
  }

  lemma MarkSteps(db: Db, id: OpId, fp: Digest, status: AuditStatus, io: Io)
    requires RowsInv(db.ops) && RowsExist(db)
    ensures var db' := MarkInDoubt(db, id, fp, status, io).db; LedgerStep(db, RowChangeAt(db.ops, id, db'.ops), db')
  {
    NothingHappens(db);
    MarkChanges(db, id, fp, status, io);
    var i := FindId(db.ops, id);
    if MarkInDoubt(db, id, fp, status, io).db != db { InDoubtSteps(db, i.value, status); }
  }

  lemma ReconcileSteps(db: Db, req: Reconciliation, actor: Actor, io: Io)
    requires RowsInv(db.ops) && RowsExist(db)
    ensures var db' := Reconcile(db, req, actor, io).db; LedgerStep(db, RowChangeAt(db.ops, req.id, db'.ops), db')
  {
    NothingHappens(db);
    ReconcileChanges(db, req, actor, io);
    var db' := Reconcile(db, req, actor, io).db;
    if db' != db {
      var i := FindId(db.ops, req.id).value;
      var actual, target := ResolvedAmount(req.resolution).value, ResolvedState(req.resolution);
      var db1 := ApplyTerminal(db, i, target, actual, Verbatim(OperationReconciled), Some(req.evidence), io.now).value;
      ApplyTerminalMoves(db, i, target, actual, Verbatim(OperationReconciled), Some(req.evidence), io.now);
      ApplyTerminalSteps(db, i, target, actual, Verbatim(OperationReconciled), Some(req.evidence), io.now);
      AuditKeepsSteps(db, Moved(i, Ended(db.ops[i], target, actual, Verbatim(OperationReconciled), Some(req.evidence), io.now)),
                      db1, db'.audit);
    }
  }

  lemma ExpireSteps(db: Db, i: nat, now: int)
    requires RowsInv(db.ops) && RowsExist(db) && i < |db.ops|
    ensures LedgerStep(db, ExpireChange(db, i, now), ExpireOne(db, i, now))
  {
    NothingHappens(db);
    ExpireChanges(db, i, now);
    var op := db.ops[i];
    if Overdue(op, now) {
      if op.state == Reserved {
        ApplyTerminalSteps(db, i, Refunded, 0, Verbatim(ReservationExpired), None, now);
        var db1 := ApplyTerminal(db, i, Refunded, 0, Verbatim(ReservationExpired), None, now).value;
        AuditKeepsSteps(db, ExpireChange(db, i, now), db1, db1.audit + [AuditOutcome(op.id, Blocked)]);
      } else {
        InDoubtSteps(db, i, Failed);
      }
    }
  }
}
