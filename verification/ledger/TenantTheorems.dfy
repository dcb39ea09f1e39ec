/**
 What tenants mean for the platform: how far its cap can be passed by them, and what resuming a tenant allows.
 */
module TenantTheorems {
  import opened Prelude
  import opened Texts
  import opened Hashing
  import opened Fingerprints
  import opened LedgerModel
  import opened LedgerSpec
  import opened LedgerRows
  import opened LedgerSteps
  import opened LedgerLaws
  import opened LedgerRuns
  import opened LedgerTheorems
  import Money
  import Numbers

  // ----- sums over all owners -----

  /** The tenants that have operations, each once. */
  function TenantsOf(ops: seq<Operation>): (ts: seq<Text>)
    ensures forall i :: 0 <= i < |ops| && ops[i].components.tenant.Some? ==> ops[i].components.tenant.value in ts
    ensures forall t :: t in ts ==> exists i :: 0 <= i < |ops| && ops[i].components.tenant == Some(t)
  {
    if ops == [] then []
    else
      var last := ops[|ops| - 1];
      var rest := TenantsOf(ops[..|ops| - 1]);
      assert forall i :: 0 <= i < |ops| - 1 ==> ops[..|ops| - 1][i] == ops[i];
      match last.components.tenant
      case None => rest
      case Some(t) => if t in rest then rest else rest + [t]
  }

  ghost predicate Distinct(ts: seq<Text>) {
    forall j, k :: 0 <= j < k < |ts| ==> ts[j] != ts[k]
  }

  lemma {:induction false} TenantsAreDistinct(ops: seq<Operation>)
    ensures Distinct(TenantsOf(ops))
  {
    if ops != [] { TenantsAreDistinct(ops[..|ops| - 1]); }
  }

  datatype Kind = OfHeld | OfCharged | OfOverrun

  function Measured(k: Kind, s: Scope): Measure {
    match k
    case OfHeld => Held(s)
    case OfCharged => Charged(s)
    case OfOverrun => Overrun(s)
  }

  /** A sum over the operations of some tenants. */
  function TenantTotal(ops: seq<Operation>, k: Kind, ts: seq<Text>): nat {
    if ts == [] then 0
    else TenantTotal(ops, k, ts[..|ts| - 1]) + Sum(ops, Measured(k, Tenant(ts[|ts| - 1])))
  }

  function PeakTotal(h: History, ts: seq<Text>): nat {
    if ts == [] then 0 else PeakTotal(h, ts[..|ts| - 1]) + At(h.tenantPeak, ts[|ts| - 1])
  }

  lemma {:induction false} NothingTotals(k: Kind, ts: seq<Text>)
    ensures TenantTotal([], k, ts) == 0
  {
    if ts != [] { NothingTotals(k, ts[..|ts| - 1]); }
  }

  /** What one operation adds to a total. */
  function Share(op: Operation, k: Kind, ts: seq<Text>): nat {
    if op.components.tenant.Some? && op.components.tenant.value in ts then Weigh(op, Measured(k, Everyone)) else 0
  }

  lemma TotalUnfolds(ops: seq<Operation>, k: Kind, front: seq<Text>, t: Text)
    ensures TenantTotal(ops, k, front + [t]) == TenantTotal(ops, k, front) + Sum(ops, Measured(k, Tenant(t)))
  {
    assert (front + [t])[..|front|] == front;
  }

  lemma ShareOfOneMore(op: Operation, k: Kind, front: seq<Text>, t: Text)
    requires t !in front
    ensures Share(op, k, front + [t]) == Share(op, k, front) + Weigh(op, Measured(k, Tenant(t)))
  {
  }

  lemma {:induction false} TotalOfAdded(ops: seq<Operation>, op: Operation, k: Kind, ts: seq<Text>)
    requires Distinct(ts)
    ensures TenantTotal(ops + [op], k, ts) == TenantTotal(ops, k, ts) + Share(op, k, ts)
  {
    if ts != [] {
      var front, t := ts[..|ts| - 1], ts[|ts| - 1];
      assert ts == front + [t] && t !in front;
      TotalOfAdded(ops, op, k, front);
      TotalUnfolds(ops, k, front, t);
      TotalUnfolds(ops + [op], k, front, t);
      SumOfAdded(ops, op, Measured(k, Tenant(t)));
      ShareOfOneMore(op, k, front, t);
    }
  }

  /** Every operation is the platform's own or one tenant's. */
  lemma {:induction false} SumsSplitByOwner(ops: seq<Operation>, k: Kind, ts: seq<Text>)
    requires Distinct(ts)
    requires forall i :: 0 <= i < |ops| && ops[i].components.tenant.Some? ==> ops[i].components.tenant.value in ts
    ensures Sum(ops, Measured(k, Everyone)) == Sum(ops, Measured(k, Platform)) + TenantTotal(ops, k, ts)
  {
    if ops == [] {
      NothingTotals(k, ts);
    } else {
      var front, op := ops[..|ops| - 1], ops[|ops| - 1];
      assert ops == front + [op];
      SumsSplitByOwner(front, k, ts);
      SumOfAdded(front, op, Measured(k, Everyone));
      SumOfAdded(front, op, Measured(k, Platform));
      TotalOfAdded(front, op, k, ts);
    }
  }

  lemma {:induction false} TenantsAreBoundedTogether(db: Db, h: History, ts: seq<Text>)
    requires forall t :: TenantMoney(db, h, t)
    ensures TenantTotal(db.ops, OfCharged, ts) + TenantTotal(db.ops, OfHeld, ts) <= PeakTotal(h, ts) + TenantTotal(db.ops, OfOverrun, ts)
  {
    if ts != [] {
      TenantsAreBoundedTogether(db, h, ts[..|ts| - 1]);
      assert TenantMoney(db, h, ts[|ts| - 1]);
    }
  }

  // ----- the platform's cap -----

  /** All that is charged and held stays within the caps of all owners, but for charges beyond their reservations. */
  lemma LawfulTotalsAreBounded(db: Db, h: History)
    requires MoneyLaw(db, h)
    ensures Sum(db.ops, Charged(Everyone)) + Sum(db.ops, Held(Everyone))
      <= h.peak + PeakTotal(h, TenantsOf(db.ops)) + Sum(db.ops, Overrun(Everyone))
  {
    var ts := TenantsOf(db.ops);
    TenantsAreDistinct(db.ops);
    SumsSplitByOwner(db.ops, OfCharged, ts);
    SumsSplitByOwner(db.ops, OfHeld, ts);
    SumsSplitByOwner(db.ops, OfOverrun, ts);
    TenantsAreBoundedTogether(db, h, ts);
  }

  /**
   In every run, what the platform's budget has spent and what anyone holds is at most the platform's highest cap, the
   highest caps of the tenants that have operations, direct spending and overruns.
   */
  lemma PlatformTotalsAreBounded(sha: Hash, events: seq<Event>)
    ensures var s := After(sha, INITIAL, events);
      SpentOf(s.db.budget) + Sum(s.db.ops, Held(Everyone))
        <= s.history.peak + PeakTotal(s.history, TenantsOf(s.db.ops)) + s.history.direct + Sum(s.db.ops, Overrun(Everyone))
  {
    EveryRunIsLawful(sha, events);
    var s := After(sha, INITIAL, events);
    LawfulTotalsAreBounded(s.db, s.history);
  }

  lemma {:induction false} NoTenants(ops: seq<Operation>)
    requires forall i :: 0 <= i < |ops| ==> ops[i].components.tenant.None?
    ensures TenantsOf(ops) == []
  {
    if ops != [] { NoTenants(ops[..|ops| - 1]); }
  }

  lemma NoTenantsNoPeaks(ops: seq<Operation>, h: History)
    requires forall i :: 0 <= i < |ops| ==> ops[i].components.tenant.None?
    ensures PeakTotal(h, TenantsOf(ops)) == 0
  {
    NoTenants(ops);
  }

  /** While no tenant has an operation, the platform's cap is the only one that counts. */
  lemma WithoutTenantsThePlatformIsWithinItsCap(sha: Hash, events: seq<Event>)
    requires var ops := After(sha, INITIAL, events).db.ops; forall i :: 0 <= i < |ops| ==> ops[i].components.tenant.None?
    ensures var s := After(sha, INITIAL, events);
      SpentOf(s.db.budget) + Sum(s.db.ops, Held(Everyone)) <= s.history.peak + s.history.direct + Sum(s.db.ops, Overrun(Everyone))
  {
    PlatformTotalsAreBounded(sha, events);
    var s := After(sha, INITIAL, events);
    NoTenantsNoPeaks(s.db.ops, s.history);
  }

  // ----- a tenant in doubt is admitted again -----

  /** A tenant's row after its operation went in doubt, and after it was resumed. */
  function HaltedTenant(cap: nat): Budget { Budget(0, cap, true, Some(ComplianceDrift), false, 1) }

  function ResumedTenant(cap: nat): Budget { Budget(0, cap, false, Some(ComplianceDrift), true, 2) }

  lemma Dispatched(sha: Hash, db: Db, op: Operation, io: Io)
    requires !io.fails && db.ops == [op] && op.state == Reserved && io.now < op.deadline
    ensures Apply(sha, db, CallStart(op.id, op.fingerprint), io) == db.(ops := [Started(op, io.now)])
  {
    assert [op][0 := Started(op, io.now)] == [Started(op, io.now)];
    assert FindId([op], op.id) == Some(0);
  }

  lemma Marked(sha: Hash, db: Db, op: Operation, t: Text, cap: nat, io: Io)
    requires !io.fails && db.ops == [op] && op.state == Executing && op.components.tenant == Some(t)
    requires db.tenants == map[t := Budget(0, cap, false, None, false, 0)]
    ensures Apply(sha, db, CallMark(op.id, op.fingerprint, Failed), io)
      == db.(ops := [Doubted(op)], tenants := map[t := HaltedTenant(cap)], audit := db.audit + [AuditOutcome(op.id, Failed)])
  {
    assert [op][0 := Doubted(op)] == [Doubted(op)];
    assert FindId([op], op.id) == Some(0);
  }

  lemma DispatchedAndDoubted(sha: Hash, db: Db, req: Request, amount: nat, cap: nat, io: Io)
    requires !io.fails && req.components.tenant.Some? && io.now < req.deadline
    requires var t, fp := req.components.tenant.value, FingerprintOf(sha, req.components);
      db == Db([NewOperation(req, fp, amount, io.now)], Some(Budget(0, cap, false, None, false, 0)),
               map[t := Budget(0, cap, false, None, false, 0)], [AuditIntent(req.id)])
    ensures var t, fp := req.components.tenant.value, FingerprintOf(sha, req.components);
      var db' := Apply(sha, Apply(sha, db, CallStart(req.id, fp), io), CallMark(req.id, fp, Failed), io);
      && db'.ops == [Doubted(Started(NewOperation(req, fp, amount, io.now), io.now))]
      && db'.budget == db.budget && db'.tenants == map[t := HaltedTenant(cap)]
      && db'.audit == [AuditIntent(req.id), AuditOutcome(req.id, Failed)]
  {
    var op := NewOperation(req, FingerprintOf(sha, req.components), amount, io.now);
    Dispatched(sha, db, op, io);
    Marked(sha, db.(ops := [Started(op, io.now)]), Started(op, io.now), req.components.tenant.value, cap, io);
  }

  lemma Resumed(sha: Hash, db: Db, t: Text, through: Through, cap: nat, io: Io)
    requires !io.fails && db.budget.Some? && db.tenants == map[t := HaltedTenant(cap)]
    ensures Apply(sha, db, CallResumeTenant(t, Human, through), io) == db.(tenants := map[t := ResumedTenant(cap)])
  {
  }

  lemma AdmittedAgain(sha: Hash, db: Db, op: Operation, req: Request, amount: nat, cap: nat, io: Io)
    requires !io.fails && req.components.tenant.Some? && Costs(req, amount) && cap <= Money.MAX_SAFE
    requires op.state == InDoubt && op.components.tenant == req.components.tenant && op.reserved + amount <= cap
    requires op.id != req.id && op.fingerprint != FingerprintOf(sha, req.components)
    requires db == Db([op], Some(Budget(0, cap, false, None, false, 0)), map[req.components.tenant.value := ResumedTenant(cap)],
                      [AuditIntent(op.id), AuditOutcome(op.id, Failed)])
    ensures var t := req.components.tenant.value;
      var db' := Apply(sha, db, CallReserve(req), io);
      && db'.ops == [op, NewOperation(req, FingerprintOf(sha, req.components), amount, io.now)]
      && TenantRow(db', t) == Some(ResumedTenant(cap))
  {
    assert [op][..0] == [];
    assert Sum([op], Held(Tenant(req.components.tenant.value))) == op.reserved;
    assert FindId([op], req.id).None? && FindActive([op], FingerprintOf(sha, req.components)).None?;
    assert !HasIntent(db.audit, req.id);
  }

  /** The calls: the platform opens, a first operation is granted, dispatched and marked, the tenant is resumed and asks again. */
  function DoubtAndAgain(sha: Hash, cap: nat, r1: Request, r2: Request, t: Text, through: Through, io: Io): seq<Event> {
    var fp := FingerprintOf(sha, r1.components);
    [Event(CallOpen(cap, 0), io), Event(CallReserve(r1), io), Event(CallStart(r1.id, fp), io),
     Event(CallMark(r1.id, fp, Failed), io), Event(CallResumeTenant(t, Human, through), io), Event(CallReserve(r2), io)]
  }

  lemma {:induction false} AfterConcat(sha: Hash, s: State, a: seq<Event>, b: seq<Event>)
    ensures After(sha, s, a + b) == After(sha, After(sha, s, a), b)
    decreases |a|
  {
    if a == [] {
      assert a + b == b;
    } else {
      assert (a + b)[1..] == a[1..] + b;
      AfterConcat(sha, Next(sha, s, a[0]), a[1..], b);
    }
  }

  lemma SixEvents(sha: Hash, s: State, es: seq<Event>)
    requires |es| == 6
    ensures After(sha, s, es)
      == Next(sha, Next(sha, Next(sha, Next(sha, Next(sha, Next(sha, s, es[0]), es[1]), es[2]), es[3]), es[4]), es[5])
  {
    var a, b := [es[0], es[1], es[2]], [es[3], es[4], es[5]];
    assert es == a + b;
    AfterConcat(sha, s, a, b);
    ThreeEvents(sha, s, es[0], es[1], es[2]);
    ThreeEvents(sha, After(sha, s, a), es[3], es[4], es[5]);
  }

  /** A run in which a tenant with an operation in doubt is resumed and is granted another. */
  lemma TenantsInDoubtAreAdmittedAgain(sha: Hash, cap: nat, r1: Request, r2: Request, t: Text, through: Through,
                                       a: nat, b: nat, io: Io)
    requires 0 < cap <= Money.MAX_SAFE && a + b <= cap && Costs(r1, a) && Costs(r2, b) && !io.fails && io.now < r1.deadline
    requires r1.components.tenant == r2.components.tenant == Some(t) && r1.id != r2.id
    requires FingerprintOf(sha, r1.components) != FingerprintOf(sha, r2.components)
    ensures var db := After(sha, INITIAL, DoubtAndAgain(sha, cap, r1, r2, t, through, io)).db;
      && |db.ops| == 2 && db.ops[0].id == r1.id && db.ops[1].id == r2.id
      && db.ops[0].state == InDoubt && db.ops[1].state == Reserved && !Halted(TenantRow(db, t))
  {
    SixEvents(sha, INITIAL, DoubtAndAgain(sha, cap, r1, r2, t, through, io));
    TenantReserves(sha, cap, r1, a, io);
    var db2 := Apply(sha, OpenGovernor(EMPTY, cap, 0), CallReserve(r1), io);
    DispatchedAndDoubted(sha, db2, r1, a, cap, io);
    var fp := FingerprintOf(sha, r1.components);
    var db4 := Apply(sha, Apply(sha, db2, CallStart(r1.id, fp), io), CallMark(r1.id, fp, Failed), io);
    Resumed(sha, db4, t, through, cap, io);
    AdmittedAgain(sha, Apply(sha, db4, CallResumeTenant(t, Human, through), io), db4.ops[0], r2, b, cap, io);
  }

  lemma TenantReserves(sha: Hash, cap: nat, r: Request, amount: nat, io: Io)
    requires 0 < cap && amount <= cap && Costs(r, amount) && !io.fails && r.components.tenant.Some?
    ensures Apply(sha, OpenGovernor(EMPTY, cap, 0), CallReserve(r), io)
      == Db([NewOperation(r, FingerprintOf(sha, r.components), amount, io.now)], Some(Budget(0, cap, false, None, false, 0)),
            map[r.components.tenant.value := Budget(0, cap, false, None, false, 0)], [AuditIntent(r.id)])
  {
    var db0 := OpenGovernor(EMPTY, cap, 0);
    assert Sum(db0.ops, Held(Tenant(r.components.tenant.value))) == 0;
  }
}
