/**
 The rows of the budget ledger and the functions that read and rewrite them:
 packages/governance/src/budgetLedgerStore.ts and the tables of packages/governance/src/governanceDb.ts.
 */
module LedgerModel {
  import opened Prelude
  import opened Texts
  import opened Hashing
  import opened Fingerprints
  import Money
  import Numbers

  type OpId = nat

  datatype OpState = Reserved | Executing | Settled | Refunded | InDoubt | Denied

  datatype TripCode = BudgetBreach | LogicBlocker | ComplianceDrift

  /** The result codes that reach the ledger or the caller of the executor. */
  datatype Code =
    | Success
    | OutputValidationFailed
    | OperationInDoubt
    | BudgetDenied
    | ReservationExpired
    | OperationReconciled
    | ApprovalDenied
    | ApprovalUnavailable
    | MissingGovernancePort
    | RequestCancelled
    | LedgerUnavailable
    | IdempotencyConflict
    | OperationInProgress

  /** A terminal result: its code and the size of its canonical text in bytes. */
  datatype Terminal = Terminal(code: Code, bytes: nat)

  const MAX_RESULT_BYTES: nat := 262144

  /** What is kept of a terminal result: the result itself, or a digest when it is too large to replay. */
  datatype Stored = Verbatim(code: Code) | TooLarge

  function Normalize(t: Terminal): Stored {
    if t.bytes <= MAX_RESULT_BYTES then Verbatim(t.code) else TooLarge
  }

  datatype EntryKind = ReservedEntry | ExecutingEntry | SettledEntry | RefundedEntry | InDoubtEntry | DeniedEntry

  datatype Entry = Entry(kind: EntryKind, amount: nat)

  datatype EvidenceKind = OperatorAttestation | ProviderReceipt | LocalLog

  datatype Evidence = Evidence(kind: EvidenceKind, reference: Option<Text>, summary: Text)

  /** One row of governance_budget_operations with its rows of governance_budget_ledger_entries. */
  datatype Operation = Operation(
    id: OpId,
    components: Components,
    fingerprint: Digest,
    state: OpState,
    reserved: nat,
    settled: nat,
    deadline: int,
    createdAt: int,
    startedAt: Option<int>,
    terminalAt: Option<int>,
    result: Option<Stored>,
    evidence: Option<Evidence>,
    journal: seq<Entry>)

  datatype Budget = Budget(spent: nat, cap: nat, stasis: bool, trip: Option<TripCode>, resumedByHuman: bool, revision: nat)

  datatype AuditStatus = Fine | Failed | Blocked

  /** An audit row as far as the ledger is concerned: which intent it opens or closes. */
  datatype AuditEvent = AuditIntent(id: OpId) | AuditOutcome(intent: OpId, status: AuditStatus)

  /** The durable state. Rows stand in insertion order; budget is the single row of governance_budget_state. */
  datatype Db = Db(ops: seq<Operation>, budget: Option<Budget>, tenants: map<Text, Budget>, audit: seq<AuditEvent>)

  const EMPTY: Db := Db([], None, map[], [])

  // ----- reading -----

  predicate Active(s: OpState) { s == Reserved || s == Executing || s == InDoubt }

  predicate Final(s: OpState) { s == Settled || s == Refunded || s == Denied }

  /** The row with an id. */
  function FindId(ops: seq<Operation>, id: OpId): (r: Option<nat>)
    ensures r.Some? ==> r.value < |ops| && ops[r.value].id == id
    ensures r.None? ==> forall i :: 0 <= i < |ops| ==> ops[i].id != id
  {
    if ops == [] then None
    else if ops[|ops| - 1].id == id then Some(|ops| - 1)
    else FindId(ops[..|ops| - 1], id)
  }

  /** The youngest active row with a fingerprint. */
  function FindActive(ops: seq<Operation>, fp: Digest): (r: Option<nat>)
    ensures r.Some? ==> r.value < |ops| && ops[r.value].fingerprint == fp && Active(ops[r.value].state)
    ensures r.Some? ==> forall i :: r.value < i < |ops| ==> !(ops[i].fingerprint == fp && Active(ops[i].state))
    ensures r.None? ==> forall i :: 0 <= i < |ops| ==> !(ops[i].fingerprint == fp && Active(ops[i].state))
  {
    if ops == [] then None
    else if ops[|ops| - 1].fingerprint == fp && Active(ops[|ops| - 1].state) then Some(|ops| - 1)
    else FindActive(ops[..|ops| - 1], fp)
  }

  /** Whose operations a sum is over. */
  datatype Scope = Everyone | Platform | Tenant(id: Text)

  predicate InScope(op: Operation, s: Scope) {
    match s
    case Everyone => true
    case Platform => op.components.tenant.None?
    case Tenant(t) => op.components.tenant == Some(t)
  }

  /** What a sum adds up: money held, money charged, or money charged beyond the reservation. */
  datatype Measure = Held(scope: Scope) | Charged(scope: Scope) | Overrun(scope: Scope)

  function Weigh(op: Operation, m: Measure): nat {
    if !InScope(op, m.scope) then 0
    else match m
      case Held(_) => if Active(op.state) then op.reserved else 0
      case Charged(_) => op.settled
      case Overrun(_) => if op.settled > op.reserved then op.settled - op.reserved else 0
  }

  function Sum(ops: seq<Operation>, m: Measure): nat {
    if ops == [] then 0 else Sum(ops[..|ops| - 1], m) + Weigh(ops[|ops| - 1], m)
  }

  function Max(a: int, b: int): int { if a >= b then a else b }

  /** What is left to reserve: the cap less what is spent and what is held, never negative. */
  function Available(b: Budget, held: nat): nat {
    Max(0, b.cap - b.spent - held)
  }

  predicate HasIntent(audit: seq<AuditEvent>, id: OpId) {
    exists i :: 0 <= i < |audit| && audit[i] == AuditIntent(id)
  }

  predicate HasInDoubt(ops: seq<Operation>) {
    exists i :: 0 <= i < |ops| && ops[i].state == InDoubt
  }

  // ----- writing -----

  const DEFAULT_CAP: nat := 10000000

  function EnsureBudget(db: Db): (r: Db)
    ensures r.budget.Some? && r == db.(budget := r.budget)
    ensures db.budget.Some? ==> r == db
  {
    if db.budget.Some? then db else db.(budget := Some(Budget(0, DEFAULT_CAP, false, None, false, 0)))
  }

  /** A tenant without a row gets one whose cap is the platform's. */
  function EnsureTenant(db: Db, t: Text): (r: Db)
    ensures r.budget.Some? && t in r.tenants && r.ops == db.ops && r.audit == db.audit
    ensures t in db.tenants ==> r.tenants == db.tenants
    ensures t !in db.tenants ==> r.tenants == db.tenants[t := r.tenants[t]] && r.tenants[t].spent == 0
    ensures db.budget.Some? ==> r.budget == db.budget
  {
    var db1 := EnsureBudget(db);
    if t in db1.tenants then db1
    else db1.(tenants := db1.tenants[t := Budget(0, db1.budget.value.cap, false, None, false, 0)])
  }

  function Tripped(b: Budget, code: TripCode): Budget {
    b.(stasis := true, trip := Some(code), resumedByHuman := false, revision := b.revision + 1)
  }

  /** UPDATE of the single budget row: without a row it changes nothing. */
  function WriteTrip(db: Db, code: TripCode): Db {
    if db.budget.Some? then db.(budget := Some(Tripped(db.budget.value, code))) else db
  }

  function WriteTenantTrip(db: Db, t: Text, code: TripCode): Db {
    if t in db.tenants then db.(tenants := db.tenants[t := Tripped(db.tenants[t], code)]) else db
  }

  /** The trip an operation causes: its tenant's, or the platform's when it has no tenant. */
  function TripOwner(db: Db, op: Operation, code: TripCode): Db {
    match op.components.tenant
    case Some(t) => WriteTenantTrip(db, t, code)
    case None => WriteTrip(db, code)
  }

  /** Adds a charge to a budget row and trips it on a breach of its cap or an overrun of the reservation. */
  function Charge(b: Budget, actual: nat, reserved: nat, capped: bool): Option<Budget> {
    var spent := b.spent + actual;
    if spent > Money.MAX_SAFE then None
    else
      var b1 := b.(spent := spent, revision := b.revision + 1);
      if capped && spent >= b.cap then Some(b1.(stasis := true, trip := Some(BudgetBreach), resumedByHuman := false))
      else if actual > reserved then Some(b1.(stasis := true, trip := Some(ComplianceDrift), resumedByHuman := false))
      else Some(b1)
  }

  /** `recordSettlement` and `recordTenantSettlement`. Only platform operations are held to the platform's cap. */
  function ChargeOwners(db: Db, op: Operation, actual: nat): Option<Db> {
    var db1 := EnsureBudget(db);
    match Charge(db1.budget.value, actual, op.reserved, op.components.tenant.None?)
    case None => None
    case Some(b) =>
      var db2 := db1.(budget := Some(b));
      match op.components.tenant
      case None => Some(db2)
      case Some(t) =>
        var db3 := EnsureTenant(db2, t);
        match Charge(db3.tenants[t], actual, op.reserved, true)
        case None => None
        case Some(tb) => Some(db3.(tenants := db3.tenants[t := tb]))
  }

  function EndEntry(state: OpState): EntryKind {
    match state
    case Settled => SettledEntry
    case Refunded => RefundedEntry
    case Denied => DeniedEntry
    case InDoubt => InDoubtEntry
    case Executing => ExecutingEntry
    case Reserved => ReservedEntry
  }

  function Ended(op: Operation, state: OpState, actual: nat, stored: Stored, evidence: Option<Evidence>, now: int): Operation {
    op.(state := state, settled := actual, terminalAt := Some(now), result := Some(stored), evidence := evidence,
        journal := op.journal + [Entry(EndEntry(state), actual)])
  }

  /** `applyTerminal`. None stands for an error that rolls the transaction back. */
  function ApplyTerminal(db: Db, i: nat, state: OpState, actual: nat, stored: Stored, evidence: Option<Evidence>, now: int): Option<Db>
    requires i < |db.ops|
  {
    var op := db.ops[i];
    var db1 := db.(ops := db.ops[i := Ended(op, state, actual, stored, evidence, now)]);
    if state == Settled then ChargeOwners(db1, op, actual) else Some(db1)
  }

  function Doubted(op: Operation): Operation {
    op.(state := InDoubt, journal := op.journal + [Entry(InDoubtEntry, op.reserved)])
  }

  /** Marks a row in doubt, halts its owner and records the outcome. */
  function ApplyInDoubt(db: Db, i: nat, status: AuditStatus): Db
    requires i < |db.ops|
  {
    var op := db.ops[i];
    var db1 := TripOwner(db.(ops := db.ops[i := Doubted(op)]), op, ComplianceDrift);
    db1.(audit := db1.audit + [AuditOutcome(op.id, status)])
  }
}
