/**
 Runs: any sequence of calls on the ledger and the governor, by any callers, with any clock readings and failures.
 The laws hold in every state a run can reach.
 */
module LedgerRuns {
  import opened Prelude
  import opened Texts
  import opened Hashing
  import opened Fingerprints
  import opened LedgerModel
  import opened LedgerSpec
  import opened LedgerRows
  import opened LedgerSteps
  import opened LedgerLaws
  import Money
  import Numbers

  datatype Command =
    | CallReserve(request: Request)
    | CallStart(id: OpId, fp: Digest)
    | CallSettle(completion: Completion)
    | CallRefund(completion: Completion, evidence: Option<Evidence>)
    | CallMark(id: OpId, fp: Digest, status: AuditStatus)
    | CallReconcile(reconciliation: Reconciliation, actor: Actor)
    | CallRecover(batch: nat)
    | CallOpen(cap: nat, spent: nat)
    | CallResume(actor: Actor)
    | CallResumeTenant(tenant: Text, actor: Actor, through: Through)
    | CallTrip(code: TripCode)
    | CallTripTenant(tenant: Text, code: TripCode)
    | CallSetTenantCap(tenant: Text, cap: nat)
    | CallCheck(estimate: nat)
    | CallCheckTenant(tenant: Text, estimate: nat)
    | CallSpend(amount: nat)
    | CallSpendTenant(tenant: Text, amount: nat)

  function FingerprintOf(sha: Hash, c: Components): Digest {
    sha(ComponentText(c))
  }

  function Apply(sha: Hash, db: Db, c: Command, io: Io): Db {
    match c
    case CallReserve(req) => Reserve(db, req, FingerprintOf(sha, req.components), io).db
    case CallStart(id, fp) => StartExecution(db, id, fp, io).db
    case CallSettle(req) => Settle(db, req, io).db
    case CallRefund(req, evidence) => Refund(db, req, evidence, io).db
    case CallMark(id, fp, status) => MarkInDoubt(db, id, fp, status, io).db
    case CallReconcile(req, actor) => Reconcile(db, req, actor, io).db
    case CallRecover(batch) => RecoverExpired(db, batch, io)
    case CallOpen(cap, spent) => OpenGovernor(db, cap, spent)
    case CallResume(actor) => Resume(db, actor, io)
    case CallResumeTenant(t, actor, through) => ResumeTenant(db, t, actor, through, io)
    case CallTrip(code) => Trip(db, code, io)
    case CallTripTenant(t, code) => TripTenant(db, t, code, io)
    case CallSetTenantCap(t, cap) => SetTenantCap(db, t, cap, io)
    case CallCheck(estimate) => Check(db, estimate, io).db
    case CallCheckTenant(t, estimate) => CheckTenant(db, t, estimate, io).db
    case CallSpend(amount) => RecordSpend(db, amount, io)
    case CallSpendTenant(t, amount) => RecordTenantSpend(db, t, amount, io)
  }

  predicate OnLedger(c: Command) {
    c.CallReserve? || c.CallStart? || c.CallSettle? || c.CallRefund? || c.CallMark? || c.CallReconcile? || c.CallRecover?
  }

  /** What the observer notes: caps, and spending that did not go through the ledger. */
  function Observe(h: History, db: Db, c: Command, db': Db): History {
    var h' := PeaksAfter(h, db');
    match c
    case CallOpen(_, _) => h'.(direct := h.direct + Max(0, SpentOf(db'.budget) - SpentOf(db.budget)))
    case CallSpend(_) => h'.(direct := h.direct + Max(0, SpentOf(db'.budget) - SpentOf(db.budget)))
    case CallSpendTenant(t, _) =>
      h'.(tenantDirect := h.tenantDirect[t :=
        At(h.tenantDirect, t) + Max(0, SpentOf(TenantRow(db', t)) - SpentOf(TenantRow(db, t)))])
    case _ => h'
  }

  datatype Event = Event(command: Command, io: Io)

  datatype State = State(db: Db, history: History)

  const INITIAL: State := State(EMPTY, NO_HISTORY)

  function Next(sha: Hash, s: State, e: Event): State {
    var db' := Apply(sha, s.db, e.command, e.io);
    State(db', Observe(s.history, s.db, e.command, db'))
  }

  function After(sha: Hash, s: State, events: seq<Event>): State
    decreases |events|
  {
    if events == [] then s else After(sha, Next(sha, s, events[0]), events[1..])
  }

  // ----- ledger calls -----

  lemma PeaksAgree(db: Db, h: History)
    requires MoneyLaw(db, h)
    ensures MoneyLaw(db, PeaksAfter(h, db))
  {
    var h' := PeaksAfter(h, db);
    forall t ensures TenantMoney(db, h', t) {
      assert TenantMoney(db, h, t);
      assert At(h'.tenantPeak, t) == At(h.tenantPeak, t);
    }
  }

  lemma ExpireKeepsCaps(db: Db, h: History, i: nat, now: int)
    requires i < |db.ops| && MoneyLaw(db, h)
    requires MoneyLaw(ExpireOne(db, i, now), PeaksAfter(h, ExpireOne(db, i, now)))
    ensures MoneyLaw(ExpireOne(db, i, now), h)
  {
    var db' := ExpireOne(db, i, now);
    var h' := PeaksAfter(h, db');
    assert CapOf(db'.budget) == CapOf(db.budget);
    forall t ensures TenantMoney(db', h, t) {
      assert TenantMoney(db, h, t) && TenantMoney(db', h', t);
      assert CapOf(TenantRow(db', t)) == CapOf(TenantRow(db, t));
      assert At(h'.tenantPeak, t) == At(h.tenantPeak, t);
    }
  }

  lemma ExpireKeepsLaws(db: Db, h: History, i: nat, now: int)
    requires Lawful(db, h) && i < |db.ops|
    ensures var db' := ExpireOne(db, i, now);
      Lawful(db', h) && AllEvolve(db.ops, db'.ops) && (Halted(db.budget) ==> Halted(db'.budget))
  {
    ExpireSteps(db, i, now);
    StepKeepsLaws(db, h, ExpireChange(db, i, now), ExpireOne(db, i, now));
    StepEvolves(db.ops, ExpireChange(db, i, now), ExpireOne(db, i, now).ops);
    ExpireKeepsCaps(db, h, i, now);
  }

  lemma RowsEvolveTransitively(a: seq<Operation>, b: seq<Operation>, c: seq<Operation>)
    requires AllEvolve(a, b) && AllEvolve(b, c)
    ensures AllEvolve(a, c)
  {
    forall i | 0 <= i < |a| ensures Evolves(a[i], c[i]) {
      EvolvesTransitively(a[i], b[i], c[i]);
    }
  }

  lemma RowsEvolveToThemselves(a: seq<Operation>)
    ensures AllEvolve(a, a)
  {
  }

  /** From db to db' the laws were kept, rows moved forward and STASIS stayed. */
  ghost predicate Kept(db: Db, h: History, db': Db) {
    Lawful(db', h) && AllEvolve(db.ops, db'.ops) && (Halted(db.budget) ==> Halted(db'.budget))
  }

  lemma ExpireKeeps(db0: Db, db: Db, h: History, i: nat, now: int)
    requires Kept(db0, h, db) && i < |db.ops|
    ensures Kept(db0, h, ExpireOne(db, i, now))
  {
    ExpireKeepsLaws(db, h, i, now);
    RowsEvolveTransitively(db0.ops, db.ops, ExpireOne(db, i, now).ops);
  }

  /** What expiring one row keeps, expiring a batch keeps. */
  lemma {:induction false} BatchInduction(P: Db -> bool, db: Db, batch: nat, now: int)
    requires P(db)
    requires forall d: Db, i: nat :: P(d) && i < |d.ops| ==> P(ExpireOne(d, i, now))
    ensures P(ExpireBatch(db, batch, now))
    decreases batch
  {
    var found := FirstOverdue(db.ops, now);
    if batch > 0 && found.Some? {
      BatchInduction(P, ExpireOne(db, found.value, now), batch - 1, now);
    }
  }

  lemma BatchKeepsLaws(db: Db, h: History, batch: nat, now: int)
    requires Lawful(db, h)
    ensures Kept(db, h, ExpireBatch(db, batch, now))
  {
    RowsEvolveToThemselves(db.ops);
    var P := (d: Db) => Kept(db, h, d);
    forall d: Db, i: nat | P(d) && i < |d.ops| ensures P(ExpireOne(d, i, now)) {
      ExpireKeeps(db, d, h, i, now);
    }
    BatchInduction(P, db, batch, now);
  }

  lemma OneChangeKeepsLaws(db: Db, h: History, c: RowChange, db': Db)
    requires Lawful(db, h) && LedgerStep(db, c, db')
    ensures Lawful(db', PeaksAfter(h, db')) && AllEvolve(db.ops, db'.ops) && (Halted(db.budget) ==> Halted(db'.budget))
  {
    StepKeepsLaws(db, h, c, db');
    StepEvolves(db.ops, c, db'.ops);
  }

  lemma FinishKeepsLaws(db: Db, h: History, req: Completion, target: OpState, evidence: Option<Evidence>, io: Io)
    requires Lawful(db, h) && (target == Settled || target == Refunded)
    ensures var db' := Finish(db, req, target, evidence, io).db;
      Lawful(db', PeaksAfter(h, db')) && AllEvolve(db.ops, db'.ops) && (Halted(db.budget) ==> Halted(db'.budget))
  {
    var db' := Finish(db, req, target, evidence, io).db;
    FinishSteps(db, req, target, evidence, io);
    OneChangeKeepsLaws(db, h, RowChangeAt(db.ops, req.id, db'.ops), db');
  }

  /** A call on the ledger keeps every law, lets rows evolve only forward and never lifts STASIS. */
  lemma LedgerCallKeepsLaws(sha: Hash, db: Db, h: History, c: Command, io: Io)
    requires Lawful(db, h) && OnLedger(c)
    ensures var db' := Apply(sha, db, c, io);
      Lawful(db', PeaksAfter(h, db')) && AllEvolve(db.ops, db'.ops) && (Halted(db.budget) ==> Halted(db'.budget))
  {
    var db' := Apply(sha, db, c, io);
    match c
    case CallReserve(req) =>
      var fp := FingerprintOf(sha, req.components);
      ReserveSteps(db, req, fp, io);
      OneChangeKeepsLaws(db, h, ReserveChange(db, req, fp, io), db');
    case CallStart(id, fp) =>
      StartSteps(db, id, fp, io);
      OneChangeKeepsLaws(db, h, RowChangeAt(db.ops, id, db'.ops), db');
    case CallSettle(req) => FinishKeepsLaws(db, h, req, Settled, None, io);
    case CallRefund(req, evidence) => FinishKeepsLaws(db, h, req, Refunded, evidence, io);
    case CallMark(id, fp, status) =>
      MarkSteps(db, id, fp, status, io);
      OneChangeKeepsLaws(db, h, RowChangeAt(db.ops, id, db'.ops), db');
    case CallReconcile(req, actor) =>
      ReconcileSteps(db, req, actor, io);
      OneChangeKeepsLaws(db, h, RowChangeAt(db.ops, req.id, db'.ops), db');
    case CallRecover(batch) =>
      BatchKeepsLaws(db, h, if io.fails then 0 else batch, io.now);
      PeaksAgree(db', h);
  }

  // ----- governor calls -----

  /** What a governor call may do: it leaves operations and audit alone, loses no budget row, and spends only what is noted. */
  ghost predicate GovernorStep(db: Db, c: Command, db': Db) {
    && db'.ops == db.ops && db'.audit == db.audit
    && (db.budget.Some? ==> db'.budget.Some?)
    && (forall t :: t in db.tenants ==> t in db'.tenants)
    && (!c.CallOpen? && !c.CallSpend? ==> SpentOf(db'.budget) == SpentOf(db.budget))
    && (forall t :: !(c.CallSpendTenant? && c.tenant == t) ==> SpentOf(TenantRow(db', t)) == SpentOf(TenantRow(db, t)))
    && (Halted(db.budget) && !Halted(db'.budget) ==> c.CallResume? && c.actor == Human && !HasInDoubt(db.ops))
    && SpentOf(db'.budget) >= SpentOf(db.budget)
    && (forall t :: SpentOf(TenantRow(db', t)) >= SpentOf(TenantRow(db, t)))
  }

  predicate OnTenant(c: Command) {
    c.CallResumeTenant? || c.CallTripTenant? || c.CallSetTenantCap? || c.CallSpendTenant?
  }

  lemma TenantCallShape(sha: Hash, db: Db, c: Command, io: Io)
    requires OnTenant(c)
    ensures GovernorStep(db, c, Apply(sha, db, c, io))
  {
  }

  lemma GovernorCallShape(sha: Hash, db: Db, c: Command, io: Io)
    requires !OnLedger(c)
    ensures GovernorStep(db, c, Apply(sha, db, c, io))
  {
    if OnTenant(c) { TenantCallShape(sha, db, c, io); }
  }

  lemma GovernorStepKeepsMoney(db: Db, h: History, c: Command, db': Db)
    requires MoneyLaw(db, h) && !OnLedger(c) && GovernorStep(db, c, db')
    ensures MoneyLaw(db', Observe(h, db, c, db'))
  {
    var h' := Observe(h, db, c, db');
    forall t ensures TenantMoney(db', h', t) {
      assert TenantMoney(db, h, t);
      assert SpentOf(TenantRow(db', t)) - SpentOf(TenantRow(db, t)) == At(h'.tenantDirect, t) - At(h.tenantDirect, t);
    }
  }

  lemma GovernorCallKeepsMoney(sha: Hash, db: Db, h: History, c: Command, io: Io)
    requires MoneyLaw(db, h) && !OnLedger(c)
    ensures var db' := Apply(sha, db, c, io); MoneyLaw(db', Observe(h, db, c, db'))
  {
    GovernorCallShape(sha, db, c, io);
    GovernorStepKeepsMoney(db, h, c, Apply(sha, db, c, io));
  }

  lemma GovernorCallKeepsLaws(sha: Hash, db: Db, h: History, c: Command, io: Io)
    requires Lawful(db, h) && !OnLedger(c)
    ensures var db' := Apply(sha, db, c, io); Lawful(db', Observe(h, db, c, db'))
  {
    var db' := Apply(sha, db, c, io);
    GovernorCallShape(sha, db, c, io);
    GovernorCallKeepsMoney(sha, db, h, c, io);
    assert AuditLaw(db') by { assert AuditLaw(db); }
    forall i | 0 <= i < |db'.ops| && db'.ops[i].state == InDoubt && db'.ops[i].components.tenant.None?
      ensures Halted(db'.budget)
    {
      assert HasInDoubt(db.ops);
    }
  }

  // ----- runs -----

  lemma NextKeepsLaws(sha: Hash, s: State, e: Event)
    requires Lawful(s.db, s.history)
    ensures var s' := Next(sha, s, e); Lawful(s'.db, s'.history) && AllEvolve(s.db.ops, s'.db.ops)
  {
    if OnLedger(e.command) {
      LedgerCallKeepsLaws(sha, s.db, s.history, e.command, e.io);
    } else {
      GovernorCallKeepsLaws(sha, s.db, s.history, e.command, e.io);
      GovernorCallShape(sha, s.db, e.command, e.io);
      RowsEvolveToThemselves(s.db.ops);
    }
  }

  lemma {:induction false} RunKeepsLaws(sha: Hash, s: State, events: seq<Event>)
    requires Lawful(s.db, s.history)
    ensures var s' := After(sha, s, events); Lawful(s'.db, s'.history) && AllEvolve(s.db.ops, s'.db.ops)
    decreases |events|
  {
    RowsEvolveToThemselves(s.db.ops);
    if events != [] {
      var s1 := Next(sha, s, events[0]);
      NextKeepsLaws(sha, s, events[0]);
      RunKeepsLaws(sha, s1, events[1..]);
      RowsEvolveTransitively(s.db.ops, s1.db.ops, After(sha, s1, events[1..]).db.ops);
    }
  }

  lemma InitialIsLawful()
    ensures Lawful(INITIAL.db, INITIAL.history)
  {
  }

  /** Every state of every run is lawful. */
  lemma EveryRunIsLawful(sha: Hash, events: seq<Event>)
    ensures var s := After(sha, INITIAL, events); Lawful(s.db, s.history)
  {
    InitialIsLawful();
    RunKeepsLaws(sha, INITIAL, events);
  }
}
