/**
 Each method of `SqliteBudgetLedger` and `CapBudgetGovernor` as one atomic step on the durable state
 (packages/governance/src/budgetLedger.ts, packages/governance/src/budgetGovernor.ts). A step that ends in an error
 leaves the state as it was: the transaction is rolled back.
 */
module LedgerSpec {
  import opened Prelude
  import opened Texts
  import opened Hashing
  import opened Fingerprints
  import opened LedgerModel
  import Money
  import Numbers

  datatype LedgerError =
    | InvalidRequest
    | HumanRequired
    | Unavailable
    | Conflict
    | InvalidTransition
    | Expired

  datatype Reply<+T> = Ok(value: T) | Err(error: LedgerError)

  /** A reply and the state the call leaves behind. */
  datatype Step<+T> = Step(reply: Reply<T>, db: Db)

  /** What a call meets: the clock, and whether it throws before it commits (storage failure, rejected payload). */
  datatype Io = Io(now: int, fails: bool)

  datatype Request = Request(id: OpId, components: Components, deadline: int)

  datatype Reservation =
    | Granted(op: Operation)
    | Replay(op: Operation)
    | InProgress(op: Operation)
    | Doubtful(op: Operation)
    | Refused(op: Operation, reason: TripCode)
    | Mismatch(op: Operation)

  // ----- reserve -----

  function Classify(op: Operation, fp: Digest, now: int): Reservation {
    if op.fingerprint != fp then Mismatch(op)
    else match op.state
      case InDoubt => Doubtful(op)
      case Reserved => if op.deadline <= now then Doubtful(op) else InProgress(op)
      case Executing => if op.deadline <= now then Doubtful(op) else InProgress(op)
      case _ => Replay(op)
  }

  function NewOperation(req: Request, fp: Digest, reserved: nat, now: int): Operation {
    Operation(req.id, req.components, fp, Reserved, reserved, 0, req.deadline, now, None, None, None, None,
              [Entry(ReservedEntry, reserved)])
  }

  function DeniedOperation(req: Request, fp: Digest, reserved: nat, now: int): Operation {
    Operation(req.id, req.components, fp, Denied, reserved, 0, req.deadline, now, None, Some(now),
              Some(Verbatim(BudgetDenied)), None, [Entry(DeniedEntry, reserved)])
  }

  function Deny(db: Db, req: Request, fp: Digest, reserved: nat, now: int, reason: TripCode): Step<Reservation> {
    var op := DeniedOperation(req, fp, reserved, now);
    Step(Ok(Refused(op, reason)), db.(ops := db.ops + [op], audit := db.audit + [AuditOutcome(req.id, Blocked)]))
  }

  function Grant(db: Db, req: Request, fp: Digest, reserved: nat, now: int): Step<Reservation> {
    var op := NewOperation(req, fp, reserved, now);
    Step(Ok(Granted(op)), db.(ops := db.ops + [op]))
  }

  function TripReason(b: Budget): TripCode {
    if b.trip.Some? then b.trip.value else BudgetBreach
  }

  /** Decides under one budget. None stands for an error that rolls the transaction back. */
  function Decide(db: Db, req: Request, fp: Digest, reserved: nat, now: int, b: Budget, scope: Scope): Option<Step<Reservation>> {
    var held := Sum(db.ops, Held(scope));
    if held > Money.MAX_SAFE then None
    else if b.stasis then Some(Deny(db, req, fp, reserved, now, TripReason(b)))
    else if reserved > Available(b, held) then
      var db1 := match scope { case Tenant(t) => WriteTenantTrip(db, t, BudgetBreach) case _ => WriteTrip(db, BudgetBreach) };
      Some(Deny(db1, req, fp, reserved, now, BudgetBreach))
    else Some(Grant(db, req, fp, reserved, now))
  }

  /** Decides on a new operation: the platform's STASIS first, then the budget of its tenant or of the platform. */
  function Admit(db: Db, req: Request, fp: Digest, now: int): Option<Step<Reservation>> {
    match Money.ToMicrousd(Numbers.ValueOf(req.components.estimateMax), true, Money.Up)
    case None => None
    case Some(reserved) =>
      if HasIntent(db.audit, req.id) then None
      else
        var db1 := EnsureBudget(db);
        var db2 := db1.(audit := db1.audit + [AuditIntent(req.id)]);
        var b := db2.budget.value;
        if b.stasis then Some(Deny(db2, req, fp, reserved, now, TripReason(b)))
        else match req.components.tenant
          case Some(t) =>
            var db3 := EnsureTenant(db2, t);
            Decide(db3, req, fp, reserved, now, db3.tenants[t], Tenant(t))
          case None => Decide(db2, req, fp, reserved, now, b, Everyone)
  }

  function Reserve(db: Db, req: Request, fp: Digest, io: Io): Step<Reservation> {
    if !req.components.Valid() then Step(Err(InvalidRequest), db)
    else if io.fails then Step(Err(Unavailable), db)
    else match FindId(db.ops, req.id)
      case Some(i) => Step(Ok(Classify(db.ops[i], fp, io.now)), db)
      case None =>
        match FindActive(db.ops, fp)
        case Some(i) => Step(Ok(Classify(db.ops[i], fp, io.now)), db)
        case None =>
          match Admit(db, req, fp, io.now)
          case Some(step) => step
          case None => Step(Err(Unavailable), db)
  }

  // ----- dispatch and completion -----

  function Started(op: Operation, now: int): Operation {
    op.(state := Executing, startedAt := Some(now), journal := op.journal + [Entry(ExecutingEntry, 0)])
  }

  function StartExecution(db: Db, id: OpId, fp: Digest, io: Io): Step<Operation> {
    if io.fails then Step(Err(Unavailable), db)
    else match FindId(db.ops, id)
      case None => Step(Err(InvalidTransition), db)
      case Some(i) =>
        var op := db.ops[i];
        if op.fingerprint != fp then Step(Err(Conflict), db)
        else if op.state == Reserved && op.deadline > io.now then
          Step(Ok(Started(op, io.now)), db.(ops := db.ops[i := Started(op, io.now)]))
        else if op.state == Reserved then Step(Err(Expired), db)
        else Step(Err(InvalidTransition), db)
  }

  datatype Completion = Completion(id: OpId, fp: Digest, actual: nat, terminal: Terminal, status: AuditStatus)

  /** `finish`: settles an executing operation, or refunds one; refunding after dispatch takes evidence. */
  function Finish(db: Db, req: Completion, target: OpState, evidence: Option<Evidence>, io: Io): Step<Operation>
    requires target == Settled || target == Refunded
  {
    if req.actual > Money.MAX_SAFE then Step(Err(InvalidRequest), db)
    else if io.fails then Step(Err(Unavailable), db)
    else match FindId(db.ops, req.id)
      case None => Step(Err(InvalidTransition), db)
      case Some(i) =>
        var op := db.ops[i];
        var allowed := if target == Settled then op.state == Executing else op.state == Reserved || op.state == Executing;
        if op.fingerprint != req.fp then Step(Err(Conflict), db)
        else if op.state == target then Step(Ok(op), db)
        else if !allowed then Step(Err(InvalidTransition), db)
        else if target == Refunded && op.state == Executing && evidence.None? then Step(Err(InvalidTransition), db)
        else
          var actual := if target == Settled then req.actual else 0;
          match ApplyTerminal(db, i, target, actual, Normalize(req.terminal), evidence, io.now)
          case None => Step(Err(Unavailable), db)
          case Some(db1) => Step(Ok(db1.ops[i]), db1.(audit := db1.audit + [AuditOutcome(op.id, req.status)]))
  }

  function Settle(db: Db, req: Completion, io: Io): Step<Operation> {
    Finish(db, req, Settled, None, io)
  }

  function Refund(db: Db, req: Completion, evidence: Option<Evidence>, io: Io): Step<Operation> {
    Finish(db, req, Refunded, evidence, io)
  }

  function MarkInDoubt(db: Db, id: OpId, fp: Digest, status: AuditStatus, io: Io): Step<Operation> {
    if io.fails then Step(Err(Unavailable), db)
    else match FindId(db.ops, id)
      case None => Step(Err(InvalidTransition), db)
      case Some(i) =>
        var op := db.ops[i];
        if op.fingerprint != fp then Step(Err(Conflict), db)
        else if op.state == InDoubt then Step(Ok(op), db)
        else if op.state != Executing then Step(Err(InvalidTransition), db)
        else
          var db1 := ApplyInDoubt(db, i, status);
          Step(Ok(db1.ops[i]), db1)
  }

  // ----- human reconciliation -----

  datatype Resolution = SettledAs(actualUsd: real) | RefundedAs

  datatype Reconciliation = Reconciliation(id: OpId, resolution: Resolution, evidence: Evidence, intent: OpId)

  function ResolvedAmount(r: Resolution): Option<nat> {
    match r { case SettledAs(usd) => Money.ToMicrousd(usd, true, Money.Up) case RefundedAs => Some(0) }
  }

  function ResolvedState(r: Resolution): OpState {
    if r.SettledAs? then Settled else Refunded
  }

  function Reconcile(db: Db, req: Reconciliation, actor: Actor, io: Io): Step<Operation> {
    if actor != Human then Step(Err(HumanRequired), db)
    else if req.intent == req.id || ResolvedAmount(req.resolution).None? then Step(Err(InvalidRequest), db)
    else if io.fails then Step(Err(Unavailable), db)
    else match FindId(db.ops, req.id)
      case None => Step(Err(InvalidTransition), db)
      case Some(i) =>
        var op := db.ops[i];
        var actual := ResolvedAmount(req.resolution).value;
        var target := ResolvedState(req.resolution);
        if op.state == target then
          if op.settled == actual && op.evidence == Some(req.evidence) then Step(Ok(op), db)
          else Step(Err(Conflict), db)
        else if op.state != InDoubt then Step(Err(InvalidTransition), db)
        else if HasIntent(db.audit, req.intent) then Step(Err(Unavailable), db)
        else
          match ApplyTerminal(db, i, target, actual, Verbatim(OperationReconciled), Some(req.evidence), io.now)
          case None => Step(Err(Unavailable), db)
          case Some(db1) =>
            Step(Ok(db1.ops[i]),
                 db1.(audit := db1.audit + [AuditIntent(req.intent), AuditOutcome(req.intent, Fine)]))
  }

  // ----- the reaper -----

  predicate Overdue(op: Operation, now: int) {
    op.deadline <= now && (op.state == Reserved || op.state == Executing)
  }

  /** What the reaper makes of an overdue row: an undispatched reservation is refunded, a dispatched one goes in doubt. */
  function ExpiredRow(op: Operation, now: int): Operation {
    if !Overdue(op, now) then op
    else if op.state == Reserved then Ended(op, Refunded, 0, Verbatim(ReservationExpired), None, now)
    else Doubted(op)
  }

  /** One row of `recoverExpired`. */
  function ExpireOne(db: Db, i: nat, now: int): (r: Db)
    requires i < |db.ops|
    ensures r.ops == db.ops[i := ExpiredRow(db.ops[i], now)]
  {
    var op := db.ops[i];
    if !Overdue(op, now) then db
    else if op.state == Reserved then
      db.(ops := db.ops[i := ExpiredRow(op, now)], audit := db.audit + [AuditOutcome(op.id, Blocked)])
    else ApplyInDoubt(db, i, Failed)
  }

  /** The order of the reaper's query: by creation, then by id. */
  predicate Earlier(a: Operation, b: Operation) {
    a.createdAt < b.createdAt || (a.createdAt == b.createdAt && a.id < b.id)
  }

  /** The overdue row that comes first. */
  function FirstOverdue(ops: seq<Operation>, now: int): (r: Option<nat>)
    ensures r.Some? ==> r.value < |ops| && Overdue(ops[r.value], now)
    ensures r.Some? ==> forall j :: 0 <= j < |ops| && Overdue(ops[j], now) ==> !Earlier(ops[j], ops[r.value])
    ensures r.None? ==> forall i :: 0 <= i < |ops| ==> !Overdue(ops[i], now)
  {
    if ops == [] then None
    else
      var last := |ops| - 1;
      match FirstOverdue(ops[..last], now)
      case None => if Overdue(ops[last], now) then Some(last) else None
      case Some(i) => if Overdue(ops[last], now) && Earlier(ops[last], ops[i]) then Some(last) else Some(i)
  }

  /** Expires overdue rows in order until the batch is full or none is left. */
  function ExpireBatch(db: Db, batch: nat, now: int): Db
    decreases batch
  {
    if batch == 0 then db
    else match FirstOverdue(db.ops, now)
      case None => db
      case Some(i) => ExpireBatch(ExpireOne(db, i, now), batch - 1, now)
  }

  function RecoverExpired(db: Db, batch: nat, io: Io): Db {
    if io.fails then db else ExpireBatch(db, batch, io.now)
  }

  // ----- the governor, and the tenant methods of the ledger -----

  /** The constructor: creates the budget row unless it exists. */
  function OpenGovernor(db: Db, cap: nat, spent: nat): Db {
    if db.budget.Some? || cap == 0 then db
    else
      var stasis := spent >= cap;
      db.(budget := Some(Budget(spent, cap, stasis, if stasis then Some(BudgetBreach) else None, false, 0)))
  }

  /** `resume`: a human clears STASIS, and only when no operation is in doubt. */
  function Resume(db: Db, actor: Actor, io: Io): Db {
    if actor != Human || io.fails || HasInDoubt(db.ops) || db.budget.None? then db
    else
      var b := db.budget.value;
      db.(budget := Some(b.(stasis := false, resumedByHuman := b.trip.Some?, revision := b.revision + 1)))
  }

  /** The two objects with a `resumeTenant`: the governor's notes the human only after a trip, the ledger's always. */
  datatype Through = Governor | Ledger

  /** `resumeTenant`: a human clears a tenant's STASIS. */
  function ResumeTenant(db: Db, t: Text, actor: Actor, through: Through, io: Io): Db {
    if actor != Human || io.fails then db
    else
      var db1 := EnsureTenant(db, t);
      var b := db1.tenants[t];
      db1.(tenants := db1.tenants[t :=
        b.(stasis := false, resumedByHuman := through == Ledger || b.trip.Some?, revision := b.revision + 1)])
  }

  function Trip(db: Db, code: TripCode, io: Io): Db {
    if io.fails then db else WriteTrip(db, code)
  }

  function TripTenant(db: Db, t: Text, code: TripCode, io: Io): Db {
    if io.fails then db else WriteTenantTrip(EnsureTenant(db, t), t, code)
  }

  function SetTenantCap(db: Db, t: Text, cap: nat, io: Io): Db {
    if io.fails || cap == 0 then db
    else
      var db1 := EnsureTenant(db, t);
      var b := db1.tenants[t];
      db1.(tenants := db1.tenants[t := b.(cap := cap, revision := b.revision + 1)])
  }

  datatype Verdict = Allowed(remaining: nat) | Stopped(reason: TripCode)

  /** `check`: refuses under STASIS; trips when the estimate does not fit under the cap. */
  function Check(db: Db, estimate: nat, io: Io): Step<Verdict> {
    if io.fails || db.budget.None? then Step(Err(Unavailable), db)
    else
      var b := db.budget.value;
      if b.stasis then Step(Ok(Stopped(TripReason(b))), db)
      else if b.spent + estimate > b.cap then Step(Ok(Stopped(BudgetBreach)), WriteTrip(db, BudgetBreach))
      else Step(Ok(Allowed(b.cap - b.spent - estimate)), db)
  }

  function CheckTenant(db: Db, t: Text, estimate: nat, io: Io): Step<Verdict> {
    if io.fails || db.budget.None? then Step(Err(Unavailable), db)
    else if db.budget.value.stasis then Step(Ok(Stopped(TripReason(db.budget.value))), db)
    else
      var db1 := EnsureTenant(db, t);
      var b := db1.tenants[t];
      if b.stasis then Step(Ok(Stopped(TripReason(b))), db1)
      else if b.spent + estimate > b.cap then Step(Ok(Stopped(BudgetBreach)), WriteTenantTrip(db1, t, BudgetBreach))
      else Step(Ok(Allowed(b.cap - b.spent - estimate)), db1)
  }

  /** A direct spend on a budget row trips it once the cap is met, unless it is tripped already. */
  function Spend(b: Budget, amount: nat): Option<Budget> {
    var spent := b.spent + amount;
    if spent > Money.MAX_SAFE then None
    else
      var b1 := b.(spent := spent, revision := b.revision + 1);
      if spent >= b.cap && !b.stasis then Some(b1.(stasis := true, trip := Some(BudgetBreach), resumedByHuman := false))
      else Some(b1)
  }

  function RecordSpend(db: Db, amount: nat, io: Io): Db {
    if io.fails || db.budget.None? then db
    else match Spend(db.budget.value, amount)
      case None => db
      case Some(b) => db.(budget := Some(b))
  }

  function RecordTenantSpend(db: Db, t: Text, amount: nat, io: Io): Db {
    if io.fails || db.budget.None? then db
    else
      var db1 := EnsureTenant(db, t);
      match Spend(db1.tenants[t], amount)
      case None => db
      case Some(b) => db1.(tenants := db1.tenants[t := b])
  }
}
