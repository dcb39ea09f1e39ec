/**
 The laws of the ledger as invariants of its state, and why every ledger step keeps them.
 */
module LedgerLaws {
  import opened Prelude
  import opened Texts
  import opened Hashing
  import opened Fingerprints
  import opened LedgerModel
  import opened LedgerSpec
  import opened LedgerRows
  import opened LedgerSteps
  import Money

  // ----- the audit law: one intent per operation, one outcome once it is decided -----

  function Intents(audit: seq<AuditEvent>, id: OpId): nat {
    if audit == [] then 0
    else Intents(audit[..|audit| - 1], id) + if audit[|audit| - 1] == AuditIntent(id) then 1 else 0
  }

  function Outcomes(audit: seq<AuditEvent>, id: OpId): nat {
    if audit == [] then 0
    else
      var last := audit[|audit| - 1];
      Outcomes(audit[..|audit| - 1], id) + if last.AuditOutcome? && last.intent == id then 1 else 0
  }

  ghost predicate IsUndecided(ops: seq<Operation>, id: OpId) {
    exists i :: 0 <= i < |ops| && ops[i].id == id && Undecided(ops[i].state)
  }

  ghost predicate AuditLaw(db: Db) {
    && (forall i :: 0 <= i < |db.ops| ==> Intents(db.audit, db.ops[i].id) == 1)
    && (forall id :: Intents(db.audit, id) <= 1)
    && (forall id :: Outcomes(db.audit, id) == if IsUndecided(db.ops, id) then 0 else Intents(db.audit, id))
  }

  lemma CountAppended(audit: seq<AuditEvent>, e: AuditEvent, id: OpId)
    ensures Intents(audit + [e], id) == Intents(audit, id) + (if e == AuditIntent(id) then 1 else 0)
    ensures Outcomes(audit + [e], id) == Outcomes(audit, id) + (if e.AuditOutcome? && e.intent == id then 1 else 0)
  {
    assert (audit + [e])[..|audit|] == audit;
  }

  lemma {:induction false} IntentsCountIntents(audit: seq<AuditEvent>, id: OpId)
    ensures HasIntent(audit, id) <==> Intents(audit, id) > 0
  {
    if audit != [] {
      var front := audit[..|audit| - 1];
      IntentsCountIntents(front, id);
      if HasIntent(front, id) {
        var i :| 0 <= i < |front| && front[i] == AuditIntent(id);
        assert audit[i] == AuditIntent(id);
      }
      if HasIntent(audit, id) && audit[|audit| - 1] != AuditIntent(id) {
        var i :| 0 <= i < |audit| && audit[i] == AuditIntent(id);
        assert front[i] == AuditIntent(id);
      }
    }
  }

  lemma UndecidedRow(ops: seq<Operation>, i: nat)
    requires DistinctIds(ops) && i < |ops|
    ensures IsUndecided(ops, ops[i].id) <==> Undecided(ops[i].state)
  {
    if IsUndecided(ops, ops[i].id) {
      var j :| 0 <= j < |ops| && ops[j].id == ops[i].id && Undecided(ops[j].state);
      assert i == j;
    }
  }

  lemma UndecidedAfterAdded(ops: seq<Operation>, op: Operation, id: OpId)
    requires FindId(ops, op.id).None?
    ensures IsUndecided(ops + [op], id) <==> if id == op.id then Undecided(op.state) else IsUndecided(ops, id)
    ensures !IsUndecided(ops, op.id)
  {
    var ops' := ops + [op];
    assert ops'[|ops|] == op;
    if IsUndecided(ops, id) {
      var j :| 0 <= j < |ops| && ops[j].id == id && Undecided(ops[j].state);
      assert ops'[j] == ops[j];
    }
  }

  lemma UndecidedAfterMoved(ops: seq<Operation>, i: nat, op: Operation, id: OpId)
    requires i < |ops| && op.id == ops[i].id && id != op.id
    ensures IsUndecided(ops[i := op], id) <==> IsUndecided(ops, id)
  {
    var ops' := ops[i := op];
    if IsUndecided(ops, id) {
      var j :| 0 <= j < |ops| && ops[j].id == id && Undecided(ops[j].state);
      assert ops'[j] == ops[j];
    }
    if IsUndecided(ops', id) {
      var j :| 0 <= j < |ops'| && ops'[j].id == id && Undecided(ops'[j].state);
      assert ops'[j] == ops[j];
    }
  }

  lemma AddedKeepsAuditLaw(db: Db, c: RowChange, db': Db)
    requires RowsInv(db.ops) && AuditLaw(db)
    requires c.Added? && Changes(db.ops, c, db'.ops) && Audited(db, c, db')
    ensures AuditLaw(db')
  {
    var op := c.op;
    var audit1 := db.audit + [AuditIntent(op.id)];
    assert audit1 + [] == audit1;
    IntentsCountIntents(db.audit, op.id);
    forall id
      ensures Intents(db'.audit, id) == Intents(db.audit, id) + if id == op.id then 1 else 0
      ensures Outcomes(db'.audit, id) == Outcomes(db.audit, id) + if id == op.id && op.state == Denied then 1 else 0
    {
      CountAppended(db.audit, AuditIntent(op.id), id);
      CountAppended(audit1, AuditOutcome(op.id, Blocked), id);
    }
    forall id ensures Outcomes(db'.audit, id) == if IsUndecided(db'.ops, id) then 0 else Intents(db'.audit, id) {
      UndecidedAfterAdded(db.ops, op, id);
    }
    assert Intents(db.audit, op.id) == 0;
  }

  /** The audit rows of a move: how often each intent and outcome now stands. */
  lemma MovedCounts(db: Db, c: RowChange, db': Db, id: OpId)
    requires c.Moved? && c.i < |db.ops| && c.op.id == db.ops[c.i].id && Audited(db, c, db')
    requires Intents(db.audit, c.op.id) == 1
    ensures c.op.state == Executing ==>
      Intents(db'.audit, id) == Intents(db.audit, id) && Outcomes(db'.audit, id) == Outcomes(db.audit, id)
    ensures c.op.state != Executing && db.ops[c.i].state != InDoubt ==>
      Intents(db'.audit, id) == Intents(db.audit, id)
      && Outcomes(db'.audit, id) == Outcomes(db.audit, id) + if id == c.op.id then 1 else 0
    ensures c.op.state != Executing && db.ops[c.i].state == InDoubt ==>
      exists x :: Intents(db.audit, x) == 0
        && Intents(db'.audit, id) == Intents(db.audit, id) + (if id == x then 1 else 0)
        && Outcomes(db'.audit, id) == Outcomes(db.audit, id) + (if id == x then 1 else 0)
  {
    if c.op.state == Executing {
    } else if db.ops[c.i].state == InDoubt {
      var x :| !HasIntent(db.audit, x) && db'.audit == db.audit + [AuditIntent(x), AuditOutcome(x, Fine)];
      var audit1 := db.audit + [AuditIntent(x)];
      assert db'.audit == audit1 + [AuditOutcome(x, Fine)];
      IntentsCountIntents(db.audit, x);
      CountAppended(db.audit, AuditIntent(x), id);
      CountAppended(audit1, AuditOutcome(x, Fine), id);
      assert Intents(db.audit, x) == 0;
    } else {
      var s :| db'.audit == db.audit + [AuditOutcome(c.op.id, s)];
      CountAppended(db.audit, AuditOutcome(c.op.id, s), id);
    }
  }

  lemma MovedKeepsAuditLaw(db: Db, c: RowChange, db': Db)
    requires RowsInv(db.ops) && AuditLaw(db)
    requires c.Moved? && Changes(db.ops, c, db'.ops) && Audited(db, c, db')
    ensures AuditLaw(db')
  {
    var op := c.op;
    assert op.id == db.ops[c.i].id == db'.ops[c.i].id;
    ChangeKeepsRows(db.ops, c, db'.ops);
    UndecidedRow(db.ops, c.i);
    UndecidedRow(db'.ops, c.i);
    forall id
      ensures Intents(db'.audit, id) <= 1 && Intents(db'.audit, id) >= Intents(db.audit, id)
      ensures Outcomes(db'.audit, id) == if IsUndecided(db'.ops, id) then 0 else Intents(db'.audit, id)
    {
      MovedCounts(db, c, db', id);
      if id != op.id { UndecidedAfterMoved(db.ops, c.i, op, id); }
      UndecidedHasIntent(db, id);
    }
    forall j | 0 <= j < |db'.ops| ensures Intents(db'.audit, db'.ops[j].id) == 1 {
      assert db'.ops[j].id == db.ops[j].id;
    }
  }

  lemma UndecidedHasIntent(db: Db, id: OpId)
    requires AuditLaw(db)
    ensures IsUndecided(db.ops, id) ==> Intents(db.audit, id) == 1
  {
  }

  lemma StepKeepsAuditLaw(db: Db, c: RowChange, db': Db)
    requires RowsInv(db.ops) && AuditLaw(db)
    requires LedgerStep(db, c, db')
    ensures AuditLaw(db')
  {
    match c
    case Same =>
    case Added(_) => AddedKeepsAuditLaw(db, c, db');
    case Moved(_, _) => MovedKeepsAuditLaw(db, c, db');
  }

  // ----- the STASIS law: an operation in doubt halts the platform or was its tenant's -----

  ghost predicate StasisLaw(db: Db) {
    forall i :: 0 <= i < |db.ops| && db.ops[i].state == InDoubt && db.ops[i].components.tenant.None? ==> Halted(db.budget)
  }

  lemma StepKeepsStasisLaw(db: Db, c: RowChange, db': Db)
    requires StasisLaw(db) && LedgerStep(db, c, db')
    ensures StasisLaw(db')
  {
    forall i | 0 <= i < |db'.ops| && db'.ops[i].state == InDoubt && db'.ops[i].components.tenant.None?
      ensures Halted(db'.budget)
    {
      if c.Moved? && i == c.i {
        assert db'.ops[i] == c.op;
      } else if i < |db.ops| {
        assert db'.ops[i] == db.ops[i];
      }
    }
  }

  lemma StepKeepsRowsExist(db: Db, c: RowChange, db': Db)
    requires RowsExist(db) && LedgerStep(db, c, db')
    ensures RowsExist(db')
  {
    forall i | 0 <= i < |db'.ops| && db'.ops[i].state != Denied && db'.ops[i].components.tenant.Some?
      ensures db'.ops[i].components.tenant.value in db'.tenants
    {
      if c.Moved? && i == c.i {
        assert db'.ops[i] == c.op && db.ops[i].components == c.op.components;
      } else if i < |db.ops| {
        assert db'.ops[i] == db.ops[i];
      } else {
        assert db'.ops[i] == c.op;
      }
    }
  }

  // ----- the money laws -----

  /**
   What an observer of the budgets has seen: money spent past the ledger, and the highest cap of each budget.
   */
  datatype History = History(direct: nat, tenantDirect: map<Text, nat>, peak: nat, tenantPeak: map<Text, nat>)

  const NO_HISTORY: History := History(0, map[], 0, map[])

  function At(m: map<Text, nat>, t: Text): nat {
    if t in m then m[t] else 0
  }

  function SpentOf(b: Option<Budget>): nat {
    if b.Some? then b.value.spent else 0
  }

  function CapOf(b: Option<Budget>): nat {
    if b.Some? then b.value.cap else 0
  }

  /** Conservation: what a budget records as spent is what its operations were charged plus direct spending. */
  predicate Conserved(db: Db, s: Scope, b: Option<Budget>, direct: nat) {
    SpentOf(b) == Sum(db.ops, Charged(s)) + direct
  }

  /** Safety: charges and holds together stay under the highest cap, but for charges beyond their reservations. */
  predicate Bounded(db: Db, s: Scope, peak: nat) {
    Sum(db.ops, Charged(s)) + Sum(db.ops, Held(s)) <= peak + Sum(db.ops, Overrun(s))
  }

  predicate TenantMoney(db: Db, h: History, t: Text) {
    && Conserved(db, Tenant(t), TenantRow(db, t), At(h.tenantDirect, t))
    && Bounded(db, Tenant(t), At(h.tenantPeak, t))
    && CapOf(TenantRow(db, t)) <= At(h.tenantPeak, t)
  }

  ghost predicate MoneyLaw(db: Db, h: History) {
    && Conserved(db, Everyone, db.budget, h.direct)
    && Bounded(db, Platform, h.peak)
    && CapOf(db.budget) <= h.peak
    && forall t :: TenantMoney(db, h, t)
  }

  function PeaksAfter(h: History, db': Db): History {
    h.(peak := Max(h.peak, CapOf(db'.budget)),
       tenantPeak := map t | t in h.tenantPeak.Keys + db'.tenants.Keys :: Max(At(h.tenantPeak, t), CapOf(TenantRow(db', t))))
  }

  lemma SumsAfter(ops: seq<Operation>, c: RowChange, ops': seq<Operation>, m: Measure)
    requires Changes(ops, c, ops')
    ensures c.Same? ==> Sum(ops', m) == Sum(ops, m)
    ensures c.Added? ==> Sum(ops', m) == Sum(ops, m) + Weigh(c.op, m)
    ensures c.Moved? ==> Sum(ops', m) == Sum(ops, m) - Weigh(ops[c.i], m) + Weigh(c.op, m)
  {
    match c
    case Same =>
    case Added(op) => SumOfAdded(ops, op, m);
    case Moved(i, op) => SumOfMoved(ops, i, op, m);
  }

  /** The charge of a step is the growth of the charged sum. */
  lemma StepConserves(db: Db, c: RowChange, db': Db, s: Scope, b: Option<Budget>, b': Option<Budget>, direct: nat)
    requires RowsInv(db.ops) && Changes(db.ops, c, db'.ops)
    requires Conserved(db, s, b, direct) && TakesCharge(b, ChargeOf(c, s), b')
    ensures Conserved(db', s, b', direct)
  {
    SumsAfter(db.ops, c, db'.ops, Charged(s));
  }

  /** A moved row frees at least what it is charged, but for the overrun. */
  lemma MoveIsBounded(db: Db, c: RowChange, db': Db, s: Scope, peak: nat)
    requires RowsInv(db.ops) && c.Moved? && Changes(db.ops, c, db'.ops) && Bounded(db, s, peak)
    ensures Bounded(db', s, peak)
  {
    SumsAfter(db.ops, c, db'.ops, Charged(s));
    SumsAfter(db.ops, c, db'.ops, Held(s));
    SumsAfter(db.ops, c, db'.ops, Overrun(s));
  }

  /** A granted reservation is within what its owner's cap leaves. */
  lemma GrantIsBounded(db: Db, c: RowChange, db': Db, s: Scope, peak: nat, direct: nat, b: Option<Budget>)
    requires RowsInv(db.ops) && c.Added? && Changes(db.ops, c, db'.ops)
    requires Bounded(db, s, peak)
    requires c.op.state == Reserved && InScope(c.op, s) ==>
      b.Some? && b.value.cap <= peak
      && (c.op.reserved == 0 || b.value.spent + Sum(db.ops, Held(s)) + c.op.reserved <= b.value.cap)
      && b.value.spent >= Sum(db.ops, Charged(s))
    ensures Bounded(db', s, peak)
  {
    SumsAfter(db.ops, c, db'.ops, Charged(s));
    SumsAfter(db.ops, c, db'.ops, Held(s));
    SumsAfter(db.ops, c, db'.ops, Overrun(s));
  }

  lemma StepKeepsTenantMoney(db: Db, h: History, c: RowChange, db': Db, t: Text)
    requires RowsInv(db.ops) && LedgerStep(db, c, db') && TenantMoney(db, h, t)
    ensures TenantMoney(db', PeaksAfter(h, db'), t)
  {
    var h' := PeaksAfter(h, db');
    var b, b' := TenantRow(db, t), TenantRow(db', t);
    assert TakesCharge(b, ChargeOf(c, Tenant(t)), b');
    StepConserves(db, c, db', Tenant(t), b, b', At(h.tenantDirect, t));
    assert CapOf(b') <= At(h'.tenantPeak, t) && At(h.tenantPeak, t) <= At(h'.tenantPeak, t);
    if c.Moved? {
      MoveIsBounded(db, c, db', Tenant(t), At(h'.tenantPeak, t));
    } else if c.Added? {
      GrantIsBounded(db, c, db', Tenant(t), At(h'.tenantPeak, t), At(h.tenantDirect, t), b');
    }
  }

  lemma StepKeepsPlatformMoney(db: Db, h: History, c: RowChange, db': Db)
    requires RowsInv(db.ops) && LedgerStep(db, c, db')
    requires Conserved(db, Everyone, db.budget, h.direct) && Bounded(db, Platform, h.peak) && CapOf(db.budget) <= h.peak
    ensures var h' := PeaksAfter(h, db');
      Conserved(db', Everyone, db'.budget, h'.direct) && Bounded(db', Platform, h'.peak) && CapOf(db'.budget) <= h'.peak
  {
    var h' := PeaksAfter(h, db');
    StepConserves(db, c, db', Everyone, db.budget, db'.budget, h.direct);
    SumOfPart(db.ops, Platform);
    if c.Moved? {
      MoveIsBounded(db, c, db', Platform, h'.peak);
    } else if c.Added? {
      GrantIsBounded(db, c, db', Platform, h'.peak, h.direct, db'.budget);
    }
  }

  lemma StepKeepsMoneyLaw(db: Db, h: History, c: RowChange, db': Db)
    requires RowsInv(db.ops) && LedgerStep(db, c, db') && MoneyLaw(db, h)
    ensures MoneyLaw(db', PeaksAfter(h, db'))
  {
    StepKeepsPlatformMoney(db, h, c, db');
    forall t ensures TenantMoney(db', PeaksAfter(h, db'), t) {
      StepKeepsTenantMoney(db, h, c, db', t);
    }
  }

  // ----- all laws together -----

  ghost predicate Lawful(db: Db, h: History) {
    RowsInv(db.ops) && RowsExist(db) && AuditLaw(db) && StasisLaw(db) && MoneyLaw(db, h)
  }

  lemma StepKeepsLaws(db: Db, h: History, c: RowChange, db': Db)
    requires Lawful(db, h) && LedgerStep(db, c, db')
    ensures Lawful(db', PeaksAfter(h, db'))
  {
    ChangeKeepsRows(db.ops, c, db'.ops);
    StepKeepsRowsExist(db, c, db');
    StepKeepsAuditLaw(db, c, db');
    StepKeepsStasisLaw(db, c, db');
    StepKeepsMoneyLaw(db, h, c, db');
  }

  // ----- lives -----

  /** What time does to a row: its identity stays, its journal grows, and once final nothing changes. */
  predicate Evolves(a: Operation, b: Operation) {
    && SameIdentity(a, b)
    && a.journal <= b.journal
    && (Final(a.state) ==> b == a)
    && (a.startedAt.Some? ==> b.startedAt == a.startedAt)
    && (a.state == InDoubt && b.state != InDoubt ==> Final(b.state) && b.result == Some(Verbatim(OperationReconciled)))
  }

  ghost predicate AllEvolve(ops: seq<Operation>, ops': seq<Operation>) {
    |ops| <= |ops'| && forall i :: 0 <= i < |ops| ==> Evolves(ops[i], ops'[i])
  }

  lemma EvolvesTransitively(a: Operation, b: Operation, c: Operation)
    requires Evolves(a, b) && Evolves(b, c)
    ensures Evolves(a, c)
  {
  }

  lemma StepEvolves(ops: seq<Operation>, c: RowChange, ops': seq<Operation>)
    requires RowsInv(ops) && Changes(ops, c, ops')
    ensures AllEvolve(ops, ops')
  {
    forall i | 0 <= i < |ops| ensures Evolves(ops[i], ops'[i]) {
      if c.Moved? && c.i == i {
        assert LegalMove(ops[i], ops'[i]);
      } else {
        assert ops'[i] == ops[i];
      }
    }
  }
}
