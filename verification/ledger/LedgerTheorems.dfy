/**
 What the laws mean for callers, over every run of the ledger and the governor.
 */
module LedgerTheorems {
  import opened Prelude
  import opened Texts
  import opened Hashing
  import CanonicalJson
  import CanonicalParser
  import opened Fingerprints
  import opened LedgerModel
  import opened LedgerSpec
  import opened LedgerRows
  import opened LedgerSteps
  import opened LedgerLaws
  import opened LedgerRuns
  import Money
  import Numbers

  // ----- life cycle -----

  /** A settled, refunded or denied operation never changes again, in any continuation of any run. */
  lemma FinalRowsNeverChange(sha: Hash, s: State, events: seq<Event>, i: nat)
    requires Lawful(s.db, s.history) && i < |s.db.ops| && Final(s.db.ops[i].state)
    ensures var ops' := After(sha, s, events).db.ops; i < |ops'| && ops'[i] == s.db.ops[i]
  {
    RunKeepsLaws(sha, s, events);
    assert Evolves(s.db.ops[i], After(sha, s, events).db.ops[i]);
  }

  lemma BatchLeavesDecidedRows(db: Db, batch: nat, now: int, i: nat)
    requires i < |db.ops| && !Undecided(db.ops[i].state)
    ensures i < |ExpireBatch(db, batch, now).ops| && ExpireBatch(db, batch, now).ops[i] == db.ops[i]
  {
    BatchInduction((d: Db) => i < |d.ops| && d.ops[i] == db.ops[i], db, batch, now);
  }

  /** The operation a call on the ledger is about, when it is about one. */
  function TargetOf(c: Command): Option<OpId> {
    match c
    case CallStart(id, _) => Some(id)
    case CallSettle(req) => Some(req.id)
    case CallRefund(req, _) => Some(req.id)
    case CallMark(id, _, _) => Some(id)
    case CallReconcile(req, _) => Some(req.id)
    case _ => None
  }

  lemma OneRowChange(ops: seq<Operation>, id: OpId, ops': seq<Operation>)
    requires Changes(ops, RowChangeAt(ops, id, ops'), ops')
    ensures |ops'| == |ops| && forall i :: 0 <= i < |ops| && ops[i].id != id ==> ops'[i] == ops[i]
  {
  }

  /** A call about one operation leaves every other row alone. */
  lemma TargetedCallLeavesOthers(sha: Hash, db: Db, c: Command, io: Io)
    requires RowsInv(db.ops) && TargetOf(c).Some?
    ensures var ops' := Apply(sha, db, c, io).ops;
      |ops'| == |db.ops| && forall i :: 0 <= i < |db.ops| && db.ops[i].id != TargetOf(c).value ==> ops'[i] == db.ops[i]
  {
    var ops' := Apply(sha, db, c, io).ops;
    match c
    case CallStart(id, fp) => StartChanges(db, id, fp, io); OneRowChange(db.ops, id, ops');
    case CallSettle(req) => FinishChanges(db, req, Settled, None, io); OneRowChange(db.ops, req.id, ops');
    case CallRefund(req, evidence) => FinishChanges(db, req, Refunded, evidence, io); OneRowChange(db.ops, req.id, ops');
    case CallMark(id, fp, status) => MarkChanges(db, id, fp, status, io); OneRowChange(db.ops, id, ops');
    case CallReconcile(req, actor) => ReconcileChanges(db, req, actor, io); OneRowChange(db.ops, req.id, ops');
  }

  lemma TargetedCallLeavesDoubt(sha: Hash, db: Db, c: Command, io: Io, i: nat)
    requires TargetOf(c).Some? && i < |db.ops| && FindId(db.ops, TargetOf(c).value) == Some(i) && db.ops[i].state == InDoubt
    requires c.CallReconcile? ==> c.actor != Human
    ensures Apply(sha, db, c, io) == db
  {
  }

  lemma FindIdFinds(ops: seq<Operation>, i: nat)
    requires i < |ops| && DistinctIds(ops)
    ensures FindId(ops, ops[i].id) == Some(i)
  {
  }

  lemma OtherCallsLeaveDoubt(sha: Hash, db: Db, c: Command, io: Io, i: nat)
    requires TargetOf(c).None? && i < |db.ops| && db.ops[i].state == InDoubt
    ensures var ops' := Apply(sha, db, c, io).ops; i < |ops'| && ops'[i] == db.ops[i]
  {
    match c
    case CallReserve(req) => ReserveChanges(db, req, FingerprintOf(sha, req.components), io);
    case CallRecover(batch) => BatchLeavesDecidedRows(db, if io.fails then 0 else batch, io.now, i);
    case _ => GovernorCallShape(sha, db, c, io);
  }

  /** An operation in doubt is decided by a human reconciliation of that operation and by nothing else. */
  lemma OnlyHumansDecideDoubt(sha: Hash, db: Db, c: Command, io: Io, i: nat)
    requires RowsInv(db.ops) && i < |db.ops| && db.ops[i].state == InDoubt
    ensures var ops' := Apply(sha, db, c, io).ops;
      i < |ops'| && (ops'[i] != db.ops[i] ==> c.CallReconcile? && c.actor == Human && c.reconciliation.id == db.ops[i].id)
  {
    if TargetOf(c).None? {
      OtherCallsLeaveDoubt(sha, db, c, io, i);
    } else {
      TargetedCallLeavesOthers(sha, db, c, io);
      if TargetOf(c) == Some(db.ops[i].id) && !(c.CallReconcile? && c.actor == Human) {
        FindIdFinds(db.ops, i);
        TargetedCallLeavesDoubt(sha, db, c, io, i);
      }
    }
  }

  /** The charge of an operation is written at most once: when it changes, the row is settled and so stays as it is. */
  lemma SettlementIsWrittenOnce(sha: Hash, s: State, events: seq<Event>, more: seq<Event>, i: nat)
    requires Lawful(s.db, s.history) && i < |s.db.ops|
    requires var ops1 := After(sha, s, events).db.ops; i < |ops1| && ops1[i].settled != s.db.ops[i].settled
    ensures var s1 := After(sha, s, events);
      && s.db.ops[i].settled == 0
      && s1.db.ops[i].state == Settled
      && s1.db.ops[i].journal != []
      && s1.db.ops[i].journal[|s1.db.ops[i].journal| - 1] == Entry(SettledEntry, s1.db.ops[i].settled)
      && i < |After(sha, s1, more).db.ops| && After(sha, s1, more).db.ops[i] == s1.db.ops[i]
  {
    RunKeepsLaws(sha, s, events);
    var s1 := After(sha, s, events);
    assert Evolves(s.db.ops[i], s1.db.ops[i]) && Coherent(s.db.ops[i]) && Coherent(s1.db.ops[i]);
    FinalRowsNeverChange(sha, s1, more, i);
  }

  /** No operation ever gets two journal entries of one kind: the UNIQUE constraint on the journal never fires. */
  lemma JournalKindsAreUnique(sha: Hash, events: seq<Event>, i: nat, j: nat, k: nat)
    requires var ops := After(sha, INITIAL, events).db.ops; i < |ops| && j < k < |ops[i].journal|
    ensures var op := After(sha, INITIAL, events).db.ops[i]; op.journal[j].kind != op.journal[k].kind
  {
    EveryRunIsLawful(sha, events);
    assert Coherent(After(sha, INITIAL, events).db.ops[i]);
  }

  lemma {:induction false} FindIdMoved(ops: seq<Operation>, i: nat, op: Operation, id: OpId)
    requires i < |ops| && op.id == ops[i].id
    ensures FindId(ops[i := op], id) == FindId(ops, id)
  {
    var last := |ops| - 1;
    if i == last {
      assert ops[i := op][..last] == ops[..last];
    } else {
      assert ops[i := op][..last] == ops[..last][i := op];
      FindIdMoved(ops[..last], i, op, id);
    }
  }

  lemma FinishedRow(db: Db, req: Completion, target: OpState, evidence: Option<Evidence>, io: Io)
    requires RowsInv(db.ops) && (target == Settled || target == Refunded)
    requires Finish(db, req, target, evidence, io).reply.Ok?
    ensures var step := Finish(db, req, target, evidence, io);
      var i := FindId(db.ops, req.id);
      && i.Some? && FindId(step.db.ops, req.id) == i && i.value < |step.db.ops|
      && step.db.ops[i.value].state == target && step.db.ops[i.value].fingerprint == req.fp
      && step.reply == Ok(step.db.ops[i.value])
  {
    FinishChanges(db, req, target, evidence, io);
    var step := Finish(db, req, target, evidence, io);
    var i := FindId(db.ops, req.id).value;
    if db.ops[i].state != target {
      var actual := if target == Settled then req.actual else 0;
      ApplyTerminalMoves(db, i, target, actual, Normalize(req.terminal), evidence, io.now);
      FindIdMoved(db.ops, i, step.db.ops[i], req.id);
    }
  }

  /** The call that finishes an operation. */
  function FinishCall(req: Completion, target: OpState, evidence: Option<Evidence>): Command {
    if target == Settled then CallSettle(req) else CallRefund(req, evidence)
  }

  /** Finishing a finished operation again answers its row and changes nothing. */
  lemma FinishingAgain(db: Db, again: Completion, target: OpState, evidence: Option<Evidence>, io: Io, i: nat)
    requires RowsInv(db.ops) && i < |db.ops| && (target == Settled || target == Refunded)
    requires db.ops[i].id == again.id && db.ops[i].fingerprint == again.fp && db.ops[i].state == target
    requires again.actual <= Money.MAX_SAFE && !io.fails
    ensures Finish(db, again, target, evidence, io) == Step(Ok(db.ops[i]), db)
  {
    FindIdFinds(db.ops, i);
  }

  /**
   Repeating an accepted settlement or refund, at once or after anything else has happened, answers with the same row and
   changes nothing, the audit log included.
   */
  lemma RepeatedFinishChangesNothing(sha: Hash, s: State, req: Completion, target: OpState, evidence: Option<Evidence>, io: Io,
                                     more: seq<Event>, again: Completion, evidence': Option<Evidence>, io': Io)
    requires Lawful(s.db, s.history) && (target == Refunded || (target == Settled && evidence.None?))
    requires Finish(s.db, req, target, evidence, io).reply.Ok?
    requires again.id == req.id && again.fp == req.fp && again.actual <= Money.MAX_SAFE && !io'.fails
    ensures var db := After(sha, Next(sha, s, Event(FinishCall(req, target, evidence), io)), more).db;
      Finish(db, again, target, evidence', io') == Step(Finish(s.db, req, target, evidence, io).reply, db)
  {
    var s1 := Next(sha, s, Event(FinishCall(req, target, evidence), io));
    FinishedRow(s.db, req, target, evidence, io);
    assert s1.db == Finish(s.db, req, target, evidence, io).db;
    NextKeepsLaws(sha, s, Event(FinishCall(req, target, evidence), io));
    var i := FindId(s.db.ops, req.id).value;
    FinalRowsNeverChange(sha, s1, more, i);
    RunKeepsLaws(sha, s1, more);
    FinishingAgain(After(sha, s1, more).db, again, target, evidence', io', i);
  }

  lemma MarkedRow(db: Db, id: OpId, fp: Digest, status: AuditStatus, io: Io)
    requires MarkInDoubt(db, id, fp, status, io).reply.Ok?
    ensures var step := MarkInDoubt(db, id, fp, status, io);
      var i := FindId(db.ops, id);
      && i.Some? && i.value < |step.db.ops| && step.reply == Ok(step.db.ops[i.value])
      && step.db.ops[i.value].id == id && step.db.ops[i.value].fingerprint == fp && step.db.ops[i.value].state == InDoubt
  {
    var i := FindId(db.ops, id).value;
    if db.ops[i].state == Executing { InDoubtRows(db, i, status); }
  }

  lemma MarkingAgain(db: Db, id: OpId, fp: Digest, status: AuditStatus, io: Io, i: nat)
    requires RowsInv(db.ops) && i < |db.ops| && db.ops[i].id == id && db.ops[i].fingerprint == fp
    requires db.ops[i].state != Executing && !io.fails
    ensures MarkInDoubt(db, id, fp, status, io)
      == Step(if db.ops[i].state == InDoubt then Ok(db.ops[i]) else Err(InvalidTransition), db)
  {
    FindIdFinds(db.ops, i);
  }

  /** From doubt a row goes nowhere but to a decision. */
  lemma DoubtedRowsStayDecidable(sha: Hash, s: State, events: seq<Event>, i: nat)
    requires Lawful(s.db, s.history) && i < |s.db.ops| && s.db.ops[i].state == InDoubt
    ensures var ops' := After(sha, s, events).db.ops;
      && i < |ops'| && ops'[i].id == s.db.ops[i].id && ops'[i].fingerprint == s.db.ops[i].fingerprint
      && (ops'[i].state == InDoubt || ops'[i].state == Settled || ops'[i].state == Refunded)
  {
    RunKeepsLaws(sha, s, events);
    assert Evolves(s.db.ops[i], After(sha, s, events).db.ops[i]);
  }

  /**
   Repeating an accepted mark, at once or after anything else has happened, changes nothing: it answers the row while that
   is in doubt, and is refused once it is decided.
   */
  lemma RepeatedMarkChangesNothing(sha: Hash, s: State, id: OpId, fp: Digest, status: AuditStatus, io: Io,
                                   more: seq<Event>, status': AuditStatus, io': Io)
    requires Lawful(s.db, s.history) && MarkInDoubt(s.db, id, fp, status, io).reply.Ok? && !io'.fails
    ensures var db := After(sha, Next(sha, s, Event(CallMark(id, fp, status), io)), more).db;
      var i := FindId(s.db.ops, id);
      && i.Some? && i.value < |db.ops|
      && MarkInDoubt(db, id, fp, status', io')
        == Step(if db.ops[i.value].state == InDoubt then Ok(db.ops[i.value]) else Err(InvalidTransition), db)
  {
    var s1 := Next(sha, s, Event(CallMark(id, fp, status), io));
    MarkedRow(s.db, id, fp, status, io);
    assert s1.db == MarkInDoubt(s.db, id, fp, status, io).db;
    NextKeepsLaws(sha, s, Event(CallMark(id, fp, status), io));
    var i := FindId(s.db.ops, id).value;
    DoubtedRowsStayDecidable(sha, s1, more, i);
    RunKeepsLaws(sha, s1, more);
    MarkingAgain(After(sha, s1, more).db, id, fp, status', io', i);
  }

  lemma InDoubtRows(db: Db, i: nat, status: AuditStatus)
    requires i < |db.ops|
    ensures ApplyInDoubt(db, i, status).ops == db.ops[i := Doubted(db.ops[i])]
  {
  }

  lemma ReconciledRow(db: Db, req: Reconciliation, actor: Actor, io: Io)
    requires RowsInv(db.ops) && Reconcile(db, req, actor, io).reply.Ok?
    ensures var step := Reconcile(db, req, actor, io);
      var i := FindId(db.ops, req.id);
      && i.Some? && i.value < |step.db.ops| && step.reply == Ok(step.db.ops[i.value]) && step.db.ops[i.value].id == req.id
      && step.db.ops[i.value].state == ResolvedState(req.resolution)
      && Some(step.db.ops[i.value].settled) == ResolvedAmount(req.resolution)
      && step.db.ops[i.value].evidence == Some(req.evidence)
  {
    ReconcileChanges(db, req, actor, io);
    var i := FindId(db.ops, req.id).value;
    if db.ops[i].state == InDoubt {
      var actual, target := ResolvedAmount(req.resolution).value, ResolvedState(req.resolution);
      ApplyTerminalMoves(db, i, target, actual, Verbatim(OperationReconciled), Some(req.evidence), io.now);
    }
  }

  lemma ReconcilingAgain(db: Db, req: Reconciliation, io: Io, i: nat)
    requires RowsInv(db.ops) && i < |db.ops| && db.ops[i].id == req.id && req.intent != req.id && !io.fails
    requires db.ops[i].state == ResolvedState(req.resolution) && Some(db.ops[i].settled) == ResolvedAmount(req.resolution)
    requires db.ops[i].evidence == Some(req.evidence)
    ensures Reconcile(db, req, Human, io) == Step(Ok(db.ops[i]), db)
  {
    FindIdFinds(db.ops, i);
  }

  /** Repeating an accepted reconciliation, at once or later, answers with the same row and changes nothing. */
  lemma RepeatedReconcileChangesNothing(sha: Hash, s: State, req: Reconciliation, io: Io, more: seq<Event>, io': Io)
    requires Lawful(s.db, s.history) && Reconcile(s.db, req, Human, io).reply.Ok? && !io'.fails
    ensures var db := After(sha, Next(sha, s, Event(CallReconcile(req, Human), io)), more).db;
      Reconcile(db, req, Human, io') == Step(Reconcile(s.db, req, Human, io).reply, db)
  {
    var s1 := Next(sha, s, Event(CallReconcile(req, Human), io));
    ReconciledRow(s.db, req, Human, io);
    assert s1.db == Reconcile(s.db, req, Human, io).db;
    NextKeepsLaws(sha, s, Event(CallReconcile(req, Human), io));
    var i := FindId(s.db.ops, req.id).value;
    FinalRowsNeverChange(sha, s1, more, i);
    RunKeepsLaws(sha, s1, more);
    ReconcilingAgain(After(sha, s1, more).db, req, io', i);
  }

  // ----- money -----

  /** Conservation: every budget has spent exactly what its operations were charged and what was spent directly. */
  lemma SpendingIsConserved(sha: Hash, events: seq<Event>, t: Text)
    ensures var s := After(sha, INITIAL, events);
      && SpentOf(s.db.budget) == Sum(s.db.ops, Charged(Everyone)) + s.history.direct
      && SpentOf(TenantRow(s.db, t)) == Sum(s.db.ops, Charged(Tenant(t))) + At(s.history.tenantDirect, t)
  {
    EveryRunIsLawful(sha, events);
    var s := After(sha, INITIAL, events);
    assert TenantMoney(s.db, s.history, t);
  }

  /** Safety: spent and held money of a tenant stay within its highest cap, direct spending and overruns. */
  lemma TenantsStayWithinTheirCaps(sha: Hash, events: seq<Event>, t: Text)
    ensures var s := After(sha, INITIAL, events);
      SpentOf(TenantRow(s.db, t)) + Sum(s.db.ops, Held(Tenant(t)))
        <= At(s.history.tenantPeak, t) + At(s.history.tenantDirect, t) + Sum(s.db.ops, Overrun(Tenant(t)))
  {
    EveryRunIsLawful(sha, events);
    var s := After(sha, INITIAL, events);
    assert TenantMoney(s.db, s.history, t);
  }

  /** The same for the platform's own operations. */
  lemma PlatformStaysWithinItsCap(sha: Hash, events: seq<Event>)
    ensures var s := After(sha, INITIAL, events);
      Sum(s.db.ops, Charged(Platform)) + Sum(s.db.ops, Held(Platform)) <= s.history.peak + Sum(s.db.ops, Overrun(Platform))
  {
    EveryRunIsLawful(sha, events);
  }

  lemma {:induction false} NoOverrunNoExcess(ops: seq<Operation>, s: Scope)
    requires forall i :: 0 <= i < |ops| && InScope(ops[i], s) ==> ops[i].settled <= ops[i].reserved
    ensures Sum(ops, Overrun(s)) == 0
  {
    if ops != [] { NoOverrunNoExcess(ops[..|ops| - 1], s); }
  }

  /** With a cap that was never lowered, no direct spending and no charge above its reservation, a tenant is within its cap. */
  lemma UndisturbedTenantIsWithinItsCap(sha: Hash, events: seq<Event>, t: Text)
    requires var s := After(sha, INITIAL, events);
      && At(s.history.tenantPeak, t) == CapOf(TenantRow(s.db, t)) && At(s.history.tenantDirect, t) == 0
      && forall i :: 0 <= i < |s.db.ops| && InScope(s.db.ops[i], Tenant(t)) ==> s.db.ops[i].settled <= s.db.ops[i].reserved
    ensures var s := After(sha, INITIAL, events);
      SpentOf(TenantRow(s.db, t)) + Sum(s.db.ops, Held(Tenant(t))) <= CapOf(TenantRow(s.db, t))
  {
    TenantsStayWithinTheirCaps(sha, events, t);
    NoOverrunNoExcess(After(sha, INITIAL, events).db.ops, Tenant(t));
  }

  /** A price in micro-USD that a request states exactly. */
  predicate Costs(req: Request, amount: nat) {
    req.components.Valid() && Money.ToMicrousd(Numbers.ValueOf(req.components.estimateMax), true, Money.Up) == Some(amount)
  }

  /**
   Tenants are not held to the platform's cap: two tenants, each reserving the whole cap, together hold twice as much.
   */
  lemma TenantsTogetherMayExceedThePlatformCap(sha: Hash, cap: nat, r1: Request, r2: Request, io: Io)
    requires 0 < cap && Costs(r1, cap) && Costs(r2, cap) && !io.fails
    requires r1.id != r2.id && r1.components.tenant.Some? && r2.components.tenant.Some?
    requires r1.components.tenant != r2.components.tenant
    requires FingerprintOf(sha, r1.components) != FingerprintOf(sha, r2.components)
    ensures var s := After(sha, INITIAL, [Event(CallOpen(cap, 0), io), Event(CallReserve(r1), io), Event(CallReserve(r2), io)]);
      s.history.peak == cap && Sum(s.db.ops, Held(Everyone)) == 2 * cap && !Halted(s.db.budget)
  {
    var e0, e1, e2 := Event(CallOpen(cap, 0), io), Event(CallReserve(r1), io), Event(CallReserve(r2), io);
    var s1 := Next(sha, INITIAL, e0);
    var s2 := Next(sha, s1, e1);
    ThreeEvents(sha, INITIAL, e0, e1, e2);
    FirstTenantReserves(sha, cap, r1, io);
    var op1 := NewOperation(r1, FingerprintOf(sha, r1.components), cap, io.now);
    SecondTenantReserves(sha, cap, r1, r2, s2.db, op1, io);
    var op2 := NewOperation(r2, FingerprintOf(sha, r2.components), cap, io.now);
    SumOfAdded([], op1, Held(Everyone));
    assert [] + [op1] == [op1];
    SumOfAdded([op1], op2, Held(Everyone));
  }

  lemma ThreeEvents(sha: Hash, s: State, e0: Event, e1: Event, e2: Event)
    ensures After(sha, s, [e0, e1, e2]) == Next(sha, Next(sha, Next(sha, s, e0), e1), e2)
  {
    assert [e0, e1, e2][1..] == [e1, e2] && [e1, e2][1..] == [e2] && [e2][1..] == [];
    var s1 := Next(sha, s, e0);
    assert After(sha, s1, [e1, e2]) == After(sha, Next(sha, s1, e1), [e2]);
  }

  lemma FirstTenantReserves(sha: Hash, cap: nat, r1: Request, io: Io)
    requires 0 < cap && Costs(r1, cap) && !io.fails && r1.components.tenant.Some?
    ensures var db := Apply(sha, OpenGovernor(EMPTY, cap, 0), CallReserve(r1), io);
      && db.ops == [NewOperation(r1, FingerprintOf(sha, r1.components), cap, io.now)]
      && db.budget == Some(Budget(0, cap, false, None, false, 0))
      && db.tenants == map[r1.components.tenant.value := Budget(0, cap, false, None, false, 0)]
      && db.audit == [AuditIntent(r1.id)]
  {
    var db0 := OpenGovernor(EMPTY, cap, 0);
    assert Sum(db0.ops, Held(Tenant(r1.components.tenant.value))) == 0;
  }

  lemma SecondTenantReserves(sha: Hash, cap: nat, r1: Request, r2: Request, db: Db, op1: Operation, io: Io)
    requires 0 < cap <= Money.MAX_SAFE && Costs(r2, cap) && !io.fails && r2.components.tenant.Some? && r1.components.tenant.Some?
    requires r1.id != r2.id && r1.components.tenant != r2.components.tenant
    requires FingerprintOf(sha, r1.components) != FingerprintOf(sha, r2.components)
    requires op1 == NewOperation(r1, FingerprintOf(sha, r1.components), cap, io.now)
    requires db == Db([op1], Some(Budget(0, cap, false, None, false, 0)),
                      map[r1.components.tenant.value := Budget(0, cap, false, None, false, 0)], [AuditIntent(r1.id)])
    ensures var db' := Apply(sha, db, CallReserve(r2), io);
      && db'.ops == [op1, NewOperation(r2, FingerprintOf(sha, r2.components), cap, io.now)]
      && db'.budget == db.budget
  {
    var t := r2.components.tenant.value;
    assert [op1][..0] == [];
    assert Sum(db.ops, Held(Tenant(t))) == 0;
    assert FindId(db.ops, r2.id).None?;
    assert FindActive(db.ops, FingerprintOf(sha, r2.components)).None?;
    assert !HasIntent(db.audit, r2.id);
  }

  // ----- STASIS -----

  /** While a platform operation is in doubt the platform is halted, in every state of every run. */
  lemma DoubtHaltsThePlatform(sha: Hash, events: seq<Event>, i: nat)
    requires var ops := After(sha, INITIAL, events).db.ops;
      i < |ops| && ops[i].state == InDoubt && ops[i].components.tenant.None?
    ensures Halted(After(sha, INITIAL, events).db.budget)
  {
    EveryRunIsLawful(sha, events);
  }

  /** Only a human's resume lifts the platform's STASIS, and only when no operation at all is in doubt. */
  lemma OnlyAHumanResumes(sha: Hash, s: State, e: Event)
    requires Lawful(s.db, s.history) && Halted(s.db.budget) && !Halted(Next(sha, s, e).db.budget)
    ensures e.command == CallResume(Human)
    ensures forall i :: 0 <= i < |s.db.ops| ==> s.db.ops[i].state != InDoubt
  {
    if OnLedger(e.command) {
      LedgerCallKeepsLaws(sha, s.db, s.history, e.command, e.io);
    } else {
      GovernorCallShape(sha, s.db, e.command, e.io);
    }
  }

  /** While the platform is halted nothing is granted; a new operation is refused and recorded as denied. */
  lemma StasisAdmitsNothing(db: Db, req: Request, fp: Digest, io: Io)
    requires Halted(db.budget)
    ensures var step := Reserve(db, req, fp, io);
      !(step.reply.Ok? && step.reply.value.Granted?)
      && (forall i :: |db.ops| <= i < |step.db.ops| ==> step.db.ops[i].state == Denied)
  {
  }

  /**
   The tenant's STASIS has no such guard: `resumeTenant` lifts it whatever is in doubt. Afterwards the tenant is halted
   by its operations in doubt exactly when it has none.
   */
  lemma ResumeTenantIgnoresDoubt(db: Db, t: Text, through: Through, io: Io)
    requires !io.fails
    ensures var db' := ResumeTenant(db, t, Human, through, io);
      (forall i :: 0 <= i < |db'.ops| && db'.ops[i].state == InDoubt && db'.ops[i].components.tenant == Some(t) ==>
        Halted(TenantRow(db', t)))
      <==> (forall i :: 0 <= i < |db.ops| && db.ops[i].state == InDoubt ==> db.ops[i].components.tenant != Some(t))
  {
    var db' := ResumeTenant(db, t, Human, through, io);
    assert db'.ops == db.ops && !Halted(TenantRow(db', t));
    assert forall i :: 0 <= i < |db.ops| ==> db'.ops[i] == db.ops[i];
  }

  // ----- audit -----

  /** Every operation has exactly one audit intent, and exactly one outcome from the moment it is decided. */
  lemma EveryOperationIsAudited(sha: Hash, events: seq<Event>, i: nat)
    requires i < |After(sha, INITIAL, events).db.ops|
    ensures var db := After(sha, INITIAL, events).db;
      && Intents(db.audit, db.ops[i].id) == 1
      && Outcomes(db.audit, db.ops[i].id) == if Undecided(db.ops[i].state) then 0 else 1
  {
    EveryRunIsLawful(sha, events);
    UndecidedRow(After(sha, INITIAL, events).db.ops, i);
  }

  // ----- idempotency -----

  /** Every row carries the fingerprint of its own components. */
  ghost predicate Genuine(sha: Hash, ops: seq<Operation>) {
    forall i :: 0 <= i < |ops| ==> ops[i].fingerprint == FingerprintOf(sha, ops[i].components) && CanonicalJson.Proper(ops[i].components.input)
  }

  lemma BatchKeepsLength(db: Db, batch: nat, now: int)
    ensures |ExpireBatch(db, batch, now).ops| == |db.ops|
  {
    BatchInduction((d: Db) => |d.ops| == |db.ops|, db, batch, now);
  }

  lemma ReserveAdds(db: Db, req: Request, fp: Digest, io: Io)
    ensures var ops' := Reserve(db, req, fp, io).db.ops;
      |ops'| == |db.ops| || (|ops'| == |db.ops| + 1 && req.components.Valid()
        && ops'[|db.ops|].components == req.components && ops'[|db.ops|].fingerprint == fp)
  {
  }

  /** Only a reservation adds a row, and the row it adds is the request's. */
  lemma RowsAddedByReserveOnly(sha: Hash, db: Db, c: Command, io: Io)
    requires RowsInv(db.ops)
    ensures var ops' := Apply(sha, db, c, io).ops;
      |ops'| == |db.ops| || (|ops'| == |db.ops| + 1 && c.CallReserve? && c.request.components.Valid()
        && ops'[|db.ops|].components == c.request.components
        && ops'[|db.ops|].fingerprint == FingerprintOf(sha, c.request.components))
  {
    if TargetOf(c).Some? {
      TargetedCallLeavesOthers(sha, db, c, io);
    } else {
      match c
      case CallReserve(req) => ReserveAdds(db, req, FingerprintOf(sha, req.components), io);
      case CallRecover(batch) => BatchKeepsLength(db, if io.fails then 0 else batch, io.now);
      case _ => GovernorCallShape(sha, db, c, io);
    }
  }

  lemma NextKeepsGenuine(sha: Hash, s: State, e: Event)
    requires Lawful(s.db, s.history) && Genuine(sha, s.db.ops)
    ensures Genuine(sha, Next(sha, s, e).db.ops)
  {
    NextKeepsLaws(sha, s, e);
    RowsAddedByReserveOnly(sha, s.db, e.command, e.io);
    var ops' := Next(sha, s, e).db.ops;
    forall i | 0 <= i < |ops'|
      ensures ops'[i].fingerprint == FingerprintOf(sha, ops'[i].components) && CanonicalJson.Proper(ops'[i].components.input)
    {
      if i < |s.db.ops| { assert Evolves(s.db.ops[i], ops'[i]); }
    }
  }

  lemma {:induction false} RunKeepsGenuine(sha: Hash, s: State, events: seq<Event>)
    requires Lawful(s.db, s.history) && Genuine(sha, s.db.ops)
    ensures Genuine(sha, After(sha, s, events).db.ops)
    decreases |events|
  {
    if events != [] {
      NextKeepsLaws(sha, s, events[0]);
      NextKeepsGenuine(sha, s, events[0]);
      RunKeepsGenuine(sha, Next(sha, s, events[0]), events[1..]);
    }
  }

  /** The same request never has two operations alive at once. */
  lemma OneLiveOperationPerRequest(sha: Hash, events: seq<Event>, i: nat, j: nat)
    requires var ops := After(sha, INITIAL, events).db.ops;
      i < j < |ops| && Active(ops[i].state) && Active(ops[j].state)
    ensures var ops := After(sha, INITIAL, events).db.ops; !SameComponents(ops[i].components, ops[j].components)
  {
    InitialIsLawful();
    EveryRunIsLawful(sha, events);
    RunKeepsGenuine(sha, INITIAL, events);
    var ops := After(sha, INITIAL, events).db.ops;
    assert ops[i].fingerprint != ops[j].fingerprint;
    if SameComponents(ops[i].components, ops[j].components) {
      ComponentTextIdentifies(ops[i].components, ops[j].components);
    }
  }

  lemma ReplyIsARow(db: Db, req: Request, fp: Digest, io: Io)
    requires var r := Reserve(db, req, fp, io).reply; r.Ok? && (r.value.Replay? || r.value.InProgress? || r.value.Doubtful?)
    ensures var op := Reserve(db, req, fp, io).reply.value.op;
      op.fingerprint == fp && exists i :: 0 <= i < |db.ops| && db.ops[i] == op
  {
    var op := Reserve(db, req, fp, io).reply.value.op;
    var i := if FindId(db.ops, req.id).Some? then FindId(db.ops, req.id) else FindActive(db.ops, fp);
    assert i.Some? && db.ops[i.value] == op;
  }

  lemma SameDigestSameRequest(sha: Hash, c: Components, d: Components)
    requires CanonicalJson.Proper(c.input) && CanonicalJson.Proper(d.input) && FingerprintOf(sha, c) == FingerprintOf(sha, d)
    ensures SameComponents(c, d) || Collides(sha, ComponentText(c), ComponentText(d))
  {
    if ComponentText(c) == ComponentText(d) {
      ComponentTextIdentifies(c, d);
    } else {
      CanonicalParser.CanonicalTextIsWellFormed(CanonicalJson.Obj(ComponentMembers(c)));
      CanonicalParser.CanonicalTextIsWellFormed(CanonicalJson.Obj(ComponentMembers(d)));
    }
  }

  /** An answer about an earlier operation is an answer to the same request, or the texts of the two collide. */
  lemma RepliesAreAboutTheSameRequest(sha: Hash, events: seq<Event>, req: Request, io: Io)
    requires req.components.Valid()
    requires var r := Reserve(After(sha, INITIAL, events).db, req, FingerprintOf(sha, req.components), io).reply;
      r.Ok? && (r.value.Replay? || r.value.InProgress? || r.value.Doubtful?)
    ensures var r := Reserve(After(sha, INITIAL, events).db, req, FingerprintOf(sha, req.components), io).reply;
      || SameComponents(r.value.op.components, req.components)
      || Collides(sha, ComponentText(r.value.op.components), ComponentText(req.components))
  {
    InitialIsLawful();
    RunKeepsGenuine(sha, INITIAL, events);
    var db := After(sha, INITIAL, events).db;
    var fp := FingerprintOf(sha, req.components);
    ReplyIsARow(db, req, fp, io);
    var op := Reserve(db, req, fp, io).reply.value.op;
    SameDigestSameRequest(sha, op.components, req.components);
  }

  // ----- the reaper -----

  function CountOverdue(ops: seq<Operation>, now: int): nat {
    if ops == [] then 0
    else CountOverdue(ops[..|ops| - 1], now) + if Overdue(ops[|ops| - 1], now) then 1 else 0
  }

  lemma {:induction false} CountAfterMove(ops: seq<Operation>, i: nat, op: Operation, now: int)
    requires i < |ops| && Overdue(ops[i], now) && !Overdue(op, now)
    ensures CountOverdue(ops[i := op], now) == CountOverdue(ops, now) - 1
  {
    var last := |ops| - 1;
    if i == last {
      assert ops[i := op][..last] == ops[..last];
    } else {
      CountAfterMove(ops[..last], i, op, now);
      assert ops[i := op][..last] == ops[..last][i := op];
    }
  }

  lemma {:induction false} NoneCounted(ops: seq<Operation>, now: int)
    ensures CountOverdue(ops, now) == 0 <==> forall i :: 0 <= i < |ops| ==> !Overdue(ops[i], now)
  {
    if ops != [] {
      NoneCounted(ops[..|ops| - 1], now);
      assert forall i :: 0 <= i < |ops| - 1 ==> ops[..|ops| - 1][i] == ops[i];
    }
  }

  lemma ExpireOneCounts(db: Db, i: nat, now: int)
    requires i < |db.ops| && Overdue(db.ops[i], now)
    ensures CountOverdue(ExpireOne(db, i, now).ops, now) == CountOverdue(db.ops, now) - 1
  {
    CountAfterMove(db.ops, i, ExpiredRow(db.ops[i], now), now);
  }

  lemma NothingOverdue(ops: seq<Operation>, now: int)
    requires FirstOverdue(ops, now).None?
    ensures CountOverdue(ops, now) == 0
  {
    NoneCounted(ops, now);
  }

  lemma BatchUnfolds(db: Db, i: nat, batch: nat, now: int)
    requires FirstOverdue(db.ops, now) == Some(i) && batch > 0
    ensures i < |db.ops| && Overdue(db.ops[i], now)
    ensures ExpireBatch(db, batch, now) == ExpireBatch(ExpireOne(db, i, now), batch - 1, now)
  {
  }

  /** A batch expires as many overdue rows as it may; a batch as large as their number leaves none. */
  lemma {:induction false} ReaperExpiresTheBatch(db: Db, batch: nat, now: int)
    ensures CountOverdue(ExpireBatch(db, batch, now).ops, now) == Max(0, CountOverdue(db.ops, now) - batch)
    decreases batch
  {
    var found := FirstOverdue(db.ops, now);
    if batch > 0 && found.Some? {
      BatchUnfolds(db, found.value, batch, now);
      ExpireOneCounts(db, found.value, now);
      ReaperExpiresTheBatch(ExpireOne(db, found.value, now), batch - 1, now);
    } else {
      assert ExpireBatch(db, batch, now) == db;
      if batch > 0 { NothingOverdue(db.ops, now); }
    }
  }

  /** What the reaper does to a row is decided by the row: overdue reservations are refunded, dispatched ones go in doubt. */
  lemma ReaperDecidesByState(db: Db, batch: nat, now: int, i: nat)
    requires i < |db.ops|
    ensures var ops' := ExpireBatch(db, batch, now).ops;
      i < |ops'| && (ops'[i] == db.ops[i] || ops'[i] == ExpiredRow(db.ops[i], now))
  {
    BatchInduction((d: Db) => i < |d.ops| && (d.ops[i] == db.ops[i] || d.ops[i] == ExpiredRow(db.ops[i], now)), db, batch, now);
  }
}
