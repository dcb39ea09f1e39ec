/**
 How the ledger decides, said on the rows it finds: when a request is admitted, what an earlier operation answers, when
 a transition goes through, and what trips a budget.
 */
module LedgerDecisions {
  import opened Prelude
  import opened Texts
  import opened Hashing
  import opened Fingerprints
  import opened LedgerModel
  import opened LedgerSpec
  import opened LedgerRows
  import opened LedgerSteps
  import opened LedgerLaws
  import opened LedgerTheorems
  import CanonicalJson
  import Money
  import Numbers

  // ----- budgets before and after -----

  /** The platform's budget: until it has a row, nothing is spent under a cap of ten dollars. */
  function PlatformBudget(db: Db): Budget {
    match db.budget case Some(b) => b case None => Budget(0, 10000000, false, None, false, 0)
  }

  /** A tenant's budget: until it has a row, nothing is spent under the platform's cap. */
  function TenantBudget(db: Db, t: Text): Budget {
    if t in db.tenants then db.tenants[t] else Budget(0, PlatformBudget(db).cap, false, None, false, 0)
  }

  function OwnerBudget(db: Db, tenant: Option<Text>): Budget {
    match tenant case Some(t) => TenantBudget(db, t) case None => PlatformBudget(db)
  }

  /** The operations whose holds count against an owner: the tenant's, or for the platform all there are. */
  function CountedFor(tenant: Option<Text>): Scope {
    match tenant case Some(t) => Tenant(t) case None => Everyone
  }

  /** A price fits next to what is spent and held, or costs nothing. */
  predicate HasRoom(b: Budget, held: nat, price: nat) {
    price == 0 || b.spent + held + price <= b.cap
  }

  /** Halted for a reason: as it was, or by the reason given. */
  predicate HaltedFor(b: Budget, reason: TripCode) {
    b.stasis && (b.trip == Some(reason) || (b.trip.None? && reason == BudgetBreach))
  }

  predicate SameMoney(b: Budget, b': Budget) { b'.spent == b.spent && b'.cap == b.cap }

  // ----- requests for an operation that is not there -----

  /** No row has the id of a request, and none with its fingerprint is alive. */
  ghost predicate IsNew(ops: seq<Operation>, id: OpId, fp: Digest) {
    forall i :: 0 <= i < |ops| ==>
      ops[i].id != id && !(ops[i].fingerprint == fp && (ops[i].state == Reserved || ops[i].state == Executing || ops[i].state == InDoubt))
  }

  /** What the contract asks of a request: named tenant, action and task, an input without a key twice, an ordered estimate in range. */
  predicate IsWellFormed(c: Components) {
    && (c.tenant.Some? ==> 1 <= |c.tenant.value| <= 128) && 3 <= |c.action| <= 128 && 1 <= |c.taskRef| <= 256
    && CanonicalJson.Proper(c.input)
    && 0.0 <= Numbers.ValueOf(c.estimateMin) <= Numbers.ValueOf(c.estimateMax)
    && Money.ToMicrousd(Numbers.ValueOf(c.estimateMax), true, Money.Up).Some?
  }

  /** A request is rejected as invalid exactly when it is not well formed; its price can then always be converted. */
  lemma RequestsAreRejectedExactly(db: Db, req: Request, fp: Digest, io: Io)
    ensures Reserve(db, req, fp, io).reply == Err(InvalidRequest) <==> !IsWellFormed(req.components)
  {
    Money.SchemaAmountsConvert(Numbers.ValueOf(req.components.estimateMax));
    if req.components.Valid() && !io.fails && IsNew(db.ops, req.id, fp) { NewRequestsFailExactly(db, req, fp, io); }
  }

  lemma NewRequestsAreAdmitted(db: Db, req: Request, fp: Digest, io: Io)
    requires req.components.Valid() && !io.fails && IsNew(db.ops, req.id, fp)
    ensures Reserve(db, req, fp, io)
      == match Admit(db, req, fp, io.now) case Some(step) => step case None => Step(Err(Unavailable), db)
  {
  }

  /** The granted row. */
  predicate IsReservation(op: Operation, req: Request, fp: Digest, price: nat, now: int) {
    && op.id == req.id && op.components == req.components && op.fingerprint == fp
    && op.state == Reserved && op.reserved == price && op.settled == 0
    && op.deadline == req.deadline && op.createdAt == now && op.result.None?
  }

  /** The row that records a refusal. */
  predicate IsDenial(op: Operation, req: Request, fp: Digest, price: nat, now: int) {
    && op.id == req.id && op.components == req.components && op.fingerprint == fp
    && op.state == Denied && op.reserved == price && op.settled == 0
    && op.terminalAt == Some(now) && op.result == Some(Verbatim(BudgetDenied))
  }

  /** What an admission leaves of the budgets: a grant nothing new, a refusal its owner or the platform halted. */
  ghost predicate Decided(db: Db, tenant: Option<Text>, answer: Reservation, db': Db) {
    var platform, own := PlatformBudget(db), OwnerBudget(db, tenant);
    var platform', own' := PlatformBudget(db'), OwnerBudget(db', tenant);
    && SameMoney(platform, platform') && SameMoney(own, own')
    && (answer.Granted? || platform.stasis || own.stasis ==> platform' == platform && own' == own)
    && (answer.Refused? && platform.stasis ==> HaltedFor(platform', answer.reason))
    && (answer.Refused? && !platform.stasis && own.stasis ==> HaltedFor(own', answer.reason))
    && (answer.Refused? && !platform.stasis && !own.stasis ==>
          answer.reason == BudgetBreach && own'.stasis && own'.trip == Some(BudgetBreach)
          && (tenant.Some? ==> platform' == platform))
    && (forall t :: tenant != Some(t) ==> TenantRow(db', t) == TenantRow(db, t))
  }

  /** The decision on a new request of a price. */
  ghost predicate DecidedExactly(db: Db, req: Request, fp: Digest, price: nat, now: int, step: Step<Reservation>) {
    var own, held := OwnerBudget(db, req.components.tenant), Sum(db.ops, Held(CountedFor(req.components.tenant)));
    && step.reply.Ok? && (step.reply.value.Granted? || step.reply.value.Refused?)
    && (step.reply.value.Granted? <==> !PlatformBudget(db).stasis && !own.stasis && HasRoom(own, held, price))
    && step.db.ops == db.ops + [step.reply.value.op]
    && (if step.reply.value.Granted? then IsReservation(step.reply.value.op, req, fp, price, now)
        else IsDenial(step.reply.value.op, req, fp, price, now))
    && Decided(db, req.components.tenant, step.reply.value, step.db)
  }

  lemma HaltedPlatformsAdmitNothing(db: Db, req: Request, fp: Digest, now: int, price: nat)
    requires PlatformBudget(db).stasis && AuditIntent(req.id) !in db.audit
    requires Money.ToMicrousd(Numbers.ValueOf(req.components.estimateMax), true, Money.Up) == Some(price)
    ensures Admit(db, req, fp, now).Some? && DecidedExactly(db, req, fp, price, now, Admit(db, req, fp, now).value)
  {
  }

  lemma AdmissionsOfThePlatform(db: Db, req: Request, fp: Digest, now: int, price: nat)
    requires req.components.tenant.None? && AuditIntent(req.id) !in db.audit && Sum(db.ops, Held(Everyone)) <= Money.MAX_SAFE
    requires !PlatformBudget(db).stasis
    requires Money.ToMicrousd(Numbers.ValueOf(req.components.estimateMax), true, Money.Up) == Some(price)
    ensures Admit(db, req, fp, now).Some? && DecidedExactly(db, req, fp, price, now, Admit(db, req, fp, now).value)
  {
  }

  lemma DecisionsOfTenants(db: Db, req: Request, fp: Digest, now: int, price: nat, t: Text)
    requires req.components.tenant == Some(t) && Sum(db.ops, Held(Tenant(t))) <= Money.MAX_SAFE
    requires db.budget.Some? && !db.budget.value.stasis && t in db.tenants
    ensures var step := Decide(db, req, fp, price, now, db.tenants[t], Tenant(t));
      step.Some? && DecidedExactly(db, req, fp, price, now, step.value)
  {
  }

  /** Missing budget rows and a new intent make no difference to a decision. */
  lemma DecisionsSeeTheBudgets(db: Db, db3: Db, req: Request, fp: Digest, now: int, price: nat, t: Text, step: Step<Reservation>)
    requires req.components.tenant == Some(t) && db3.ops == db.ops
    requires PlatformBudget(db3) == PlatformBudget(db) && TenantBudget(db3, t) == TenantBudget(db, t)
    requires forall u :: u != t ==> TenantRow(db3, u) == TenantRow(db, u)
    requires DecidedExactly(db3, req, fp, price, now, step)
    ensures DecidedExactly(db, req, fp, price, now, step)
  {
  }

  lemma AdmissionsOfTenants(db: Db, req: Request, fp: Digest, now: int, price: nat, t: Text)
    requires req.components.tenant == Some(t) && AuditIntent(req.id) !in db.audit && Sum(db.ops, Held(Tenant(t))) <= Money.MAX_SAFE
    requires !PlatformBudget(db).stasis
    requires Money.ToMicrousd(Numbers.ValueOf(req.components.estimateMax), true, Money.Up) == Some(price)
    ensures Admit(db, req, fp, now).Some? && DecidedExactly(db, req, fp, price, now, Admit(db, req, fp, now).value)
  {
    var db1 := EnsureBudget(db);
    var db3 := EnsureTenant(db1.(audit := db1.audit + [AuditIntent(req.id)]), t);
    DecisionsOfTenants(db3, req, fp, now, price, t);
    DecisionsSeeTheBudgets(db, db3, req, fp, now, price, t, Decide(db3, req, fp, price, now, db3.tenants[t], Tenant(t)).value);
  }

  /**
   A valid new request is granted exactly when neither the platform nor its owner is halted and its price has room under
   its owner's cap. Otherwise it is recorded as denied, the reason is given, and a budget that lacked the room is halted.
   */
  lemma NewRequestsAreGrantedExactly(db: Db, req: Request, fp: Digest, io: Io, price: nat)
    requires req.components.Valid() && !io.fails && IsNew(db.ops, req.id, fp) && AuditIntent(req.id) !in db.audit
    requires Money.ToMicrousd(Numbers.ValueOf(req.components.estimateMax), true, Money.Up) == Some(price)
    requires Sum(db.ops, Held(CountedFor(req.components.tenant))) <= Money.MAX_SAFE
    ensures DecidedExactly(db, req, fp, price, io.now, Reserve(db, req, fp, io))
  {
    NewRequestsAreAdmitted(db, req, fp, io);
    if PlatformBudget(db).stasis {
      HaltedPlatformsAdmitNothing(db, req, fp, io.now, price);
    } else {
      match req.components.tenant
      case Some(t) => AdmissionsOfTenants(db, req, fp, io.now, price, t);
      case None => AdmissionsOfThePlatform(db, req, fp, io.now, price);
    }
  }

  /** A valid new request fails exactly when its intent id is taken or the platform runs and the sum of holds is out of range. */
  lemma NewRequestsFailExactly(db: Db, req: Request, fp: Digest, io: Io)
    requires req.components.Valid() && !io.fails && IsNew(db.ops, req.id, fp)
    ensures Reserve(db, req, fp, io).reply.Err? <==>
      AuditIntent(req.id) in db.audit
      || (!PlatformBudget(db).stasis && Sum(db.ops, Held(CountedFor(req.components.tenant))) > Money.MAX_SAFE)
    ensures Reserve(db, req, fp, io).reply.Err? ==> Reserve(db, req, fp, io) == Step(Err(Unavailable), db)
  {
    NewRequestsAreAdmitted(db, req, fp, io);
    Money.SchemaAmountsConvert(Numbers.ValueOf(req.components.estimateMax));
  }

  // ----- requests an earlier operation answers -----

  /** The row that answers a request: the one with its id, or else the one with its fingerprint that is alive. */
  ghost predicate AnswersFor(ops: seq<Operation>, id: OpId, fp: Digest, i: nat) {
    i < |ops| &&
    (ops[i].id == id
     || ((forall j :: 0 <= j < |ops| ==> ops[j].id != id) && ops[i].fingerprint == fp
         && (ops[i].state == Reserved || ops[i].state == Executing || ops[i].state == InDoubt)))
  }

  predicate InTime(op: Operation, now: int) {
    (op.state == Reserved || op.state == Executing) && now < op.deadline
  }

  predicate InDoubtOrLate(op: Operation, now: int) {
    op.state == InDoubt || ((op.state == Reserved || op.state == Executing) && op.deadline <= now)
  }

  lemma {:induction false} TheAnswerIsFound(ops: seq<Operation>, id: OpId, fp: Digest, i: nat)
    requires DistinctIds(ops) && UniqueActive(ops) && AnswersFor(ops, id, fp, i)
    ensures FindId(ops, id) == (if ops[i].id == id then Some(i) else None)
    ensures ops[i].id != id ==> FindActive(ops, fp) == Some(i)
  {
    if ops[i].id == id { FindIdFinds(ops, i); }
  }

  /** Every valid request is new or has exactly one row that answers it. */
  lemma NewOrAnswered(ops: seq<Operation>, id: OpId, fp: Digest)
    requires DistinctIds(ops) && UniqueActive(ops)
    ensures IsNew(ops, id, fp) <==> forall i: nat :: !AnswersFor(ops, id, fp, i)
    ensures forall i: nat, j: nat :: AnswersFor(ops, id, fp, i) && AnswersFor(ops, id, fp, j) ==> i == j
  {
    if !IsNew(ops, id, fp) {
      if exists i :: 0 <= i < |ops| && ops[i].id == id {
        var i: nat :| i < |ops| && ops[i].id == id;
        assert AnswersFor(ops, id, fp, i);
      } else {
        var i: nat :| i < |ops| && ops[i].fingerprint == fp && (ops[i].state == Reserved || ops[i].state == Executing || ops[i].state == InDoubt);
        assert AnswersFor(ops, id, fp, i);
      }
    }
    forall i: nat, j: nat | AnswersFor(ops, id, fp, i) && AnswersFor(ops, id, fp, j) ensures i == j {
      TheAnswerIsFound(ops, id, fp, i);
      TheAnswerIsFound(ops, id, fp, j);
    }
  }

  /**
   What the row that answers a request replies: another fingerprint is a mismatch; of the same request an operation
   before its deadline is in progress, one in doubt or late is doubtful, and a final one is replayed. Nothing changes.
   */
  lemma EarlierOperationsAnswer(db: Db, req: Request, fp: Digest, io: Io, i: nat)
    requires req.components.Valid() && !io.fails && RowsInv(db.ops) && AnswersFor(db.ops, req.id, fp, i)
    ensures var step := Reserve(db, req, fp, io); var op := db.ops[i];
      && step.db == db && step.reply.Ok? && step.reply.value.op == op
      && (step.reply.value.Mismatch? <==> op.fingerprint != fp)
      && (step.reply.value.InProgress? <==> op.fingerprint == fp && InTime(op, io.now))
      && (step.reply.value.Doubtful? <==> op.fingerprint == fp && InDoubtOrLate(op, io.now))
      && (step.reply.value.Replay? <==>
            op.fingerprint == fp && (op.state == Settled || op.state == Refunded || op.state == Denied))
  {
    TheAnswerIsFound(db.ops, req.id, fp, i);
  }

  // ----- what trips a budget -----

  /** What a settlement makes of a budget row. */
  predicate ChargedRow(b: Budget, b': Budget, actual: nat, reserved: nat, capped: bool) {
    var breach, overrun := capped && b.spent + actual >= b.cap, actual > reserved;
    && b'.cap == b.cap && b'.spent == b.spent + actual
    && (b'.stasis <==> b.stasis || breach || overrun)
    && b'.trip == (if breach then Some(BudgetBreach) else if overrun then Some(ComplianceDrift) else b.trip)
    && (b'.resumedByHuman <==> b.resumedByHuman && !breach && !overrun)
  }

  /** What a settlement does to the budgets: only an operation without a tenant is held to the platform's cap. */
  ghost predicate ChargedBudgets(db: Db, op: Operation, actual: nat, db': Db) {
    && ChargedRow(PlatformBudget(db), PlatformBudget(db'), actual, op.reserved, op.components.tenant.None?)
    && (op.components.tenant.Some? ==>
          var t := op.components.tenant.value; ChargedRow(TenantBudget(db, t), TenantBudget(db', t), actual, op.reserved, true))
    && (forall t :: op.components.tenant != Some(t) ==> TenantRow(db', t) == TenantRow(db, t))
  }

  lemma ChargesTripExactly(db: Db, op: Operation, actual: nat)
    requires ChargeOwners(db, op, actual).Some?
    ensures ChargedBudgets(db, op, actual, ChargeOwners(db, op, actual).value)
  {
  }

  /** The executor's or a client's settlement: the new spend, and who is halted by it for which reason. */
  lemma SettlementsTripExactly(db: Db, req: Completion, io: Io, i: nat)
    requires DistinctIds(db.ops) && i < |db.ops| && db.ops[i].id == req.id && db.ops[i].state == Executing
    requires Settle(db, req, io).reply.Ok?
    ensures ChargedBudgets(db, db.ops[i], req.actual, Settle(db, req, io).db)
  {
    FindIdFinds(db.ops, i);
    var op := Ended(db.ops[i], Settled, req.actual, Normalize(req.terminal), None, io.now);
    ChargesTripExactly(db.(ops := db.ops[i := op]), db.ops[i], req.actual);
  }

  /** The same for a human's decision that an operation in doubt was carried out for an amount. */
  lemma ReconciliationsTripExactly(db: Db, req: Reconciliation, io: Io, i: nat)
    requires DistinctIds(db.ops) && i < |db.ops| && db.ops[i].id == req.id && db.ops[i].state == InDoubt
    requires req.resolution.SettledAs? && Reconcile(db, req, Human, io).reply.Ok?
    ensures ChargedBudgets(db, db.ops[i], ResolvedAmount(req.resolution).value, Reconcile(db, req, Human, io).db)
  {
    FindIdFinds(db.ops, i);
    var actual := ResolvedAmount(req.resolution).value;
    var op := Ended(db.ops[i], Settled, actual, Verbatim(OperationReconciled), Some(req.evidence), io.now);
    ChargesTripExactly(db.(ops := db.ops[i := op]), db.ops[i], actual);
  }

  // ----- which transitions go through -----

  /** The row with an id, if there is one. */
  ghost predicate Names(ops: seq<Operation>, id: OpId, i: nat) { i < |ops| && ops[i].id == id }

  predicate Fails<T>(db: Db, step: Step<T>, error: LedgerError) { step == Step(Err(error), db) }

  /** A dispatch goes through exactly for a reservation of the same request before its deadline. */
  lemma DispatchesExactly(db: Db, id: OpId, fp: Digest, io: Io, i: nat)
    requires DistinctIds(db.ops) && Names(db.ops, id, i) && !io.fails
    ensures var step := StartExecution(db, id, fp, io); var op := db.ops[i];
      && (step.reply.Ok? <==> op.fingerprint == fp && op.state == Reserved && io.now < op.deadline)
      && (step.reply.Ok? ==>
            && step.db == db.(ops := db.ops[i := step.reply.value])
            && step.reply.value.state == Executing && step.reply.value.startedAt == Some(io.now))
      && (Fails(db, step, Conflict) <==> op.fingerprint != fp)
      && (Fails(db, step, Expired) <==> op.fingerprint == fp && op.state == Reserved && op.deadline <= io.now)
      && (Fails(db, step, InvalidTransition) <==> op.fingerprint == fp && op.state != Reserved)
  {
    FindIdFinds(db.ops, i);
  }

  /** The budgets can count a charge within the safe integers. */
  predicate Countable(db: Db, tenant: Option<Text>, amount: nat) {
    PlatformBudget(db).spent + amount <= Money.MAX_SAFE && OwnerBudget(db, tenant).spent + amount <= Money.MAX_SAFE
  }

  /** Which completion of an operation the ledger accepts: a transition the trigger allows, with evidence after dispatch. */
  predicate Completable(db: Db, op: Operation, target: OpState, actual: nat, evidence: Option<Evidence>) {
    && op.state != InDoubt && LedgerRows.Allowed(op.state, target)
    && (if target == Settled then Countable(db, op.components.tenant, actual) else op.state == Executing ==> evidence.Some?)
  }

  lemma ChargesAreCountable(db: Db, op: Operation, actual: nat)
    ensures ChargeOwners(db, op, actual).Some? <==> Countable(db, op.components.tenant, actual)
  {
  }

  /**
   A completion is answered with the row exactly when the request is the same and the row is there already or may go
   there; it ends the row with the charge, the result and the evidence it was given, and closes the intent.
   */
  lemma CompletesExactly(db: Db, req: Completion, target: OpState, evidence: Option<Evidence>, io: Io, i: nat)
    requires DistinctIds(db.ops) && Names(db.ops, req.id, i) && !io.fails
    requires (target == Settled || target == Refunded) && req.actual <= Money.MAX_SAFE
    ensures var step := Finish(db, req, target, evidence, io); var op := db.ops[i];
      && (step.reply.Ok? <==> op.fingerprint == req.fp && (op.state == target || Completable(db, op, target, req.actual, evidence)))
      && (step.reply.Ok? && op.state == target ==> step == Step(Ok(op), db))
      && (step.reply.Ok? && op.state != target ==>
            && step.db.ops == db.ops[i := step.reply.value] && step.db.audit == db.audit + [AuditOutcome(req.id, req.status)]
            && step.reply.value.state == target && step.reply.value.terminalAt == Some(io.now)
            && step.reply.value.settled == (if target == Settled then req.actual else 0)
            && step.reply.value.result == Some(if req.terminal.bytes <= 262144 then Verbatim(req.terminal.code) else TooLarge)
            && step.reply.value.evidence == evidence)
      && (step.reply.Err? ==> step.db == db)
      && (Fails(db, step, Conflict) <==> op.fingerprint != req.fp)
      && (Fails(db, step, Unavailable) <==>
            op.fingerprint == req.fp && target == Settled && op.state == Executing && !Countable(db, op.components.tenant, req.actual))
  {
    FindIdFinds(db.ops, i);
    if target == Settled && db.ops[i].state == Executing {
      var op := Ended(db.ops[i], Settled, req.actual, Normalize(req.terminal), evidence, io.now);
      ChargesAreCountable(db.(ops := db.ops[i := op]), db.ops[i], req.actual);
    }
  }

  /** Marking goes through exactly for an operation of the same request that is executing or in doubt already. */
  lemma MarksExactly(db: Db, id: OpId, fp: Digest, status: AuditStatus, io: Io, i: nat)
    requires DistinctIds(db.ops) && Names(db.ops, id, i) && !io.fails
    ensures var step := MarkInDoubt(db, id, fp, status, io); var op := db.ops[i];
      && (step.reply.Ok? <==> op.fingerprint == fp && (op.state == Executing || op.state == InDoubt))
      && (step.reply.Ok? && op.state == InDoubt ==> step == Step(Ok(op), db))
      && (step.reply.Ok? && op.state == Executing ==>
            && step.db.ops == db.ops[i := op.(state := InDoubt, journal := op.journal + [Entry(InDoubtEntry, op.reserved)])]
            && step.reply.value == step.db.ops[i] && step.db.audit == db.audit + [AuditOutcome(id, status)]
            && (match op.components.tenant
                case None => db.budget.Some? ==> step.db.budget.Some? && TrippedBy(db.budget.value, ComplianceDrift, step.db.budget.value)
                case Some(t) => t in db.tenants ==> t in step.db.tenants && TrippedBy(db.tenants[t], ComplianceDrift, step.db.tenants[t])))
      && (Fails(db, step, Conflict) <==> op.fingerprint != fp)
      && (Fails(db, step, InvalidTransition) <==> op.fingerprint == fp && op.state != Executing && op.state != InDoubt)
  {
    FindIdFinds(db.ops, i);
  }

  /** A budget row halted for a reason, its money as it was. */
  predicate TrippedBy(b: Budget, code: TripCode, b': Budget) {
    SameMoney(b, b') && b'.stasis && b'.trip == Some(code) && !b'.resumedByHuman
  }

  /** A human's decision goes through exactly for an operation in doubt with a fresh audit intent, or when it is the decision that stands. */
  lemma ReconcilesExactly(db: Db, req: Reconciliation, io: Io, i: nat)
    requires DistinctIds(db.ops) && Names(db.ops, req.id, i) && !io.fails
    requires req.intent != req.id && ResolvedAmount(req.resolution).Some?
    ensures var step := Reconcile(db, req, Human, io); var op := db.ops[i];
      var target, amount := if req.resolution.SettledAs? then Settled else Refunded, ResolvedAmount(req.resolution).value;
      && (step.reply.Ok? <==>
            (op.state == target && op.settled == amount && op.evidence == Some(req.evidence))
            || (op.state == InDoubt && AuditIntent(req.intent) !in db.audit
                && (target == Settled ==> Countable(db, op.components.tenant, amount))))
      && (step.reply.Ok? && op.state == InDoubt ==>
            && step.db.ops == db.ops[i := step.reply.value]
            && step.reply.value.state == target && step.reply.value.settled == amount
            && step.reply.value.result == Some(Verbatim(OperationReconciled)) && step.reply.value.evidence == Some(req.evidence)
            && step.db.audit == db.audit + [AuditIntent(req.intent), AuditOutcome(req.intent, Fine)])
      && (step.reply.Err? || op.state == target ==> step.db == db)
      && (Fails(db, step, Conflict) <==> op.state == target && !(op.settled == amount && op.evidence == Some(req.evidence)))
      && (Fails(db, step, InvalidTransition) <==> op.state != target && op.state != InDoubt)
  {
    FindIdFinds(db.ops, i);
    if db.ops[i].state == InDoubt && req.resolution.SettledAs? {
      var amount := ResolvedAmount(req.resolution).value;
      var op := Ended(db.ops[i], Settled, amount, Verbatim(OperationReconciled), Some(req.evidence), io.now);
      ChargesAreCountable(db.(ops := db.ops[i := op]), db.ops[i], amount);
    }
  }

  // ----- caps and trips -----

  /** A tenant's cap is set, and nothing else of any budget. */
  lemma CapsAreSetExactly(db: Db, t: Text, cap: nat, io: Io)
    requires cap > 0 && !io.fails
    ensures var db' := SetTenantCap(db, t, cap, io); var b, b' := TenantBudget(db, t), TenantBudget(db', t);
      && b'.cap == cap && b'.spent == b.spent && b'.stasis == b.stasis && b'.trip == b.trip && b'.resumedByHuman == b.resumedByHuman
      && PlatformBudget(db') == PlatformBudget(db) && db'.ops == db.ops && db'.audit == db.audit
      && (forall u :: u != t ==> TenantRow(db', u) == TenantRow(db, u))
  {
  }

  /** A trip halts the budget it is for with the code it is given, and nothing else. */
  lemma TripsExactly(db: Db, t: Text, code: TripCode, io: Io)
    requires !io.fails
    ensures var db' := Trip(db, code, io);
      && (db.budget.Some? ==> db'.budget.Some? && TrippedBy(db.budget.value, code, db'.budget.value))
      && db' == db.(budget := db'.budget)
    ensures var db' := TripTenant(db, t, code, io);
      && t in db'.tenants && TrippedBy(TenantBudget(db, t), code, db'.tenants[t])
      && PlatformBudget(db') == PlatformBudget(db) && db'.ops == db.ops && db'.audit == db.audit
      && (forall u :: u != t ==> TenantRow(db', u) == TenantRow(db, u))
  {
  }

  /** The reaper closes the intent of a reservation it refunds as blocked, and of an operation it puts in doubt as failed. */
  lemma ExpiriesAreAudited(db: Db, i: nat, now: int)
    requires i < |db.ops| && db.ops[i].deadline <= now
    ensures db.ops[i].state == Reserved ==> ExpireOne(db, i, now).audit == db.audit + [AuditOutcome(db.ops[i].id, Blocked)]
    ensures db.ops[i].state == Executing ==> ExpireOne(db, i, now).audit == db.audit + [AuditOutcome(db.ops[i].id, Failed)]
    ensures db.ops[i].state != Reserved && db.ops[i].state != Executing ==> ExpireOne(db, i, now) == db
  {
  }

  // ----- errors -----

  /** A reservation that is answered with an error has changed nothing. */
  lemma ReservationErrorsChangeNothing(db: Db, req: Request, fp: Digest, io: Io)
    ensures Reserve(db, req, fp, io).reply.Err? ==> Reserve(db, req, fp, io).db == db
  {
  }

  /** Nor has any call on one operation that is answered with an error. */
  lemma ErrorsChangeNothing(db: Db, id: OpId, fp: Digest, done: Completion, target: OpState, evidence: Option<Evidence>,
                            status: AuditStatus, decision: Reconciliation, actor: Actor, io: Io)
    requires target == Settled || target == Refunded
    ensures StartExecution(db, id, fp, io).reply.Err? ==> StartExecution(db, id, fp, io).db == db
    ensures MarkInDoubt(db, id, fp, status, io).reply.Err? ==> MarkInDoubt(db, id, fp, status, io).db == db
    ensures Finish(db, done, target, evidence, io).reply.Err? ==> Finish(db, done, target, evidence, io).db == db
    ensures Reconcile(db, decision, actor, io).reply.Err? ==> Reconcile(db, decision, actor, io).db == db
  {
  }

  // ----- the governor -----

  /** The governor lets an estimate pass exactly when nothing is halted and it fits next to what is spent; else something is halted. */
  lemma ChecksExactly(db: Db, estimate: nat, io: Io)
    requires db.budget.Some? && !io.fails
    ensures var step := Check(db, estimate, io); var b := db.budget.value;
      && step.reply.Ok?
      && (step.reply.value.Allowed? <==> !b.stasis && b.spent + estimate <= b.cap)
      && (step.reply.value.Allowed? ==> step.db == db && b.spent + estimate + step.reply.value.remaining == b.cap)
      && (step.reply.value.Stopped? ==> step.db.budget.Some? && HaltedFor(step.db.budget.value, step.reply.value.reason))
      && (b.stasis ==> step.db == db)
      && (!b.stasis && step.reply.value.Stopped? ==> TrippedBy(b, BudgetBreach, step.db.budget.value))
  {
  }

  lemma ChecksTenantsExactly(db: Db, t: Text, estimate: nat, io: Io)
    requires db.budget.Some? && !io.fails
    ensures var step := CheckTenant(db, t, estimate, io); var platform, b := PlatformBudget(db), TenantBudget(db, t);
      && step.reply.Ok?
      && (step.reply.value.Allowed? <==> !platform.stasis && !b.stasis && b.spent + estimate <= b.cap)
      && (step.reply.value.Allowed? ==> TenantBudget(step.db, t) == b && b.spent + estimate + step.reply.value.remaining == b.cap)
      && step.db.budget == db.budget
      && (step.reply.value.Stopped? ==>
            HaltedFor(if platform.stasis then platform else TenantBudget(step.db, t), step.reply.value.reason))
      && (platform.stasis || b.stasis ==> TenantBudget(step.db, t) == b)
      && (!platform.stasis && !b.stasis && step.reply.value.Stopped? ==> TrippedBy(b, BudgetBreach, TenantBudget(step.db, t)))
  {
  }

  /** Direct spending is counted, and halts a running budget exactly when it meets the cap. */
  predicate SpentDirectly(b: Budget, amount: nat, b': Budget) {
    var breach := !b.stasis && b.spent + amount >= b.cap;
    && b'.cap == b.cap && b'.spent == b.spent + amount
    && (b'.stasis <==> b.stasis || breach)
    && b'.trip == (if breach then Some(BudgetBreach) else b.trip)
  }

  lemma DirectSpendingTripsExactly(db: Db, amount: nat, io: Io)
    requires db.budget.Some? && !io.fails
    ensures var b, db' := db.budget.value, RecordSpend(db, amount, io);
      && (b.spent + amount <= Money.MAX_SAFE ==> db'.budget.Some? && SpentDirectly(b, amount, db'.budget.value) && db' == db.(budget := db'.budget))
      && (b.spent + amount > Money.MAX_SAFE ==> db' == db)
  {
  }

  lemma DirectTenantSpendingTripsExactly(db: Db, t: Text, amount: nat, io: Io)
    requires db.budget.Some? && !io.fails
    ensures var b, db' := TenantBudget(db, t), RecordTenantSpend(db, t, amount, io);
      && (b.spent + amount <= Money.MAX_SAFE ==>
            t in db'.tenants && SpentDirectly(b, amount, db'.tenants[t]) && db' == db.(tenants := db.tenants[t := db'.tenants[t]]))
      && (b.spent + amount > Money.MAX_SAFE ==> db' == db)
  {
  }

  /** STASIS is lifted, the money as it was, exactly by a human while no operation at all is in doubt. */
  lemma ResumesExactly(db: Db, actor: Actor, io: Io)
    requires Halted(db.budget)
    ensures var db' := Resume(db, actor, io);
      && db'.budget.Some? && SameMoney(db.budget.value, db'.budget.value) && db'.budget.value.trip == db.budget.value.trip
      && (db'.budget.value.stasis <==> actor != Human || io.fails || exists i :: 0 <= i < |db.ops| && db.ops[i].state == InDoubt)
      && (db'.budget.value.stasis ==> db' == db)
      && (!db'.budget.value.stasis ==> (db'.budget.value.resumedByHuman <==> db.budget.value.trip.Some?))
      && db'.ops == db.ops && db'.tenants == db.tenants && db'.audit == db.audit
  {
  }

  /** A tenant's STASIS is lifted by every human; its money, the platform and other tenants stay as they were. */
  lemma ResumesTenantsExactly(db: Db, t: Text, actor: Actor, through: Through, io: Io)
    requires Halted(TenantRow(db, t)) && db.budget.Some?
    ensures var db' := ResumeTenant(db, t, actor, through, io);
      && t in db'.tenants && SameMoney(db.tenants[t], db'.tenants[t]) && db'.tenants[t].trip == db.tenants[t].trip
      && (db'.tenants[t].stasis <==> actor != Human || io.fails)
      && (!db'.tenants[t].stasis ==> (db'.tenants[t].resumedByHuman <==> through == Ledger || db.tenants[t].trip.Some?))
      && db' == db.(tenants := db.tenants[t := db'.tenants[t]])
  {
  }

  /** A platform opens halted exactly when the money spent before meets its cap; a row that exists stays as it is. */
  lemma OpensExactly(db: Db, cap: nat, spent: nat)
    requires cap > 0
    ensures var b := OpenGovernor(db, cap, spent).budget;
      && b.Some? && (db.budget.Some? ==> b == db.budget)
      && (db.budget.None? ==>
            && b.value.cap == cap && b.value.spent == spent
            && (b.value.stasis <==> spent >= cap) && (b.value.trip == if spent >= cap then Some(BudgetBreach) else None))
  {
  }

  /** What the governor says of an estimate for an owner. */
  function CheckFor(db: Db, tenant: Option<Text>, estimate: nat, io: Io): Step<Verdict> {
    match tenant case Some(t) => CheckTenant(db, t, estimate, io) case None => Check(db, estimate, io)
  }

  /**
   The governor's check does not count what is held. It differs from the ledger's decision on the same price exactly when
   nothing is halted and either what is held makes the price too much, or the price is zero and the cap is overspent already.
   */
  lemma ChecksDifferFromReservations(db: Db, req: Request, fp: Digest, io: Io, price: nat)
    requires req.components.Valid() && !io.fails && IsNew(db.ops, req.id, fp) && AuditIntent(req.id) !in db.audit
    requires Money.ToMicrousd(Numbers.ValueOf(req.components.estimateMax), true, Money.Up) == Some(price)
    requires db.budget.Some? && Sum(db.ops, Held(CountedFor(req.components.tenant))) <= Money.MAX_SAFE
    ensures var check := CheckFor(db, req.components.tenant, price, io);
      var own, held := OwnerBudget(db, req.components.tenant), Sum(db.ops, Held(CountedFor(req.components.tenant)));
      && check.reply.Ok? && Reserve(db, req, fp, io).reply.Ok?
      && (check.reply.value.Allowed? != Reserve(db, req, fp, io).reply.value.Granted? <==>
            !PlatformBudget(db).stasis && !own.stasis
            && ((price > 0 && own.spent + price <= own.cap < own.spent + held + price) || (price == 0 && own.spent > own.cap)))
  {
    NewRequestsAreGrantedExactly(db, req, fp, io, price);
    match req.components.tenant
    case Some(t) => ChecksTenantsExactly(db, t, price, io);
    case None => ChecksExactly(db, price, io);
  }
}
