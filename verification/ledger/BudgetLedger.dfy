/**
 `SqliteBudgetLedger` (packages/governance/src/budgetLedger.ts): each method is one transaction on the shared store.
 It reads, branches and writes statement by statement, and puts the rows back when it fails. Every method is proved to
 answer and to leave behind what its specification in LedgerSpec says.
 */
module BudgetLedger {
  import opened Prelude
  import opened Texts
  import opened Hashing
  import opened Fingerprints
  import opened LedgerModel
  import opened LedgerSpec
  import opened LedgerRows
  import opened ExpiredRows
  import opened BudgetLedgerStore
  import LedgerRuns
  import Money
  import Numbers

  class SqliteBudgetLedger {
    const store: BudgetLedgerStore
    const sha: Hash

    constructor (store: BudgetLedgerStore, sha: Hash)
      ensures this.store == store && this.sha == sha
    {
      this.store := store;
      this.sha := sha;
    }

    method RecordReservationDenial(req: Request, fp: Digest, reserved: nat, now: int, reason: TripCode)
      returns (reply: Reply<Reservation>)
      modifies store
      ensures Step(reply, store.db) == Deny(old(store.db), req, fp, reserved, now, reason)
    {
      var op := DeniedOperation(req, fp, reserved, now);
      store.InsertOperation(op);
      store.InsertAuditOutcome(req.id, Blocked);
      reply := Ok(Refused(op, reason));
    }

    /** The part of `reserve` from the sum of holds on, under the budget of a tenant or of the platform. */
    method DecideUnder(req: Request, fp: Digest, reserved: nat, now: int, budget: Budget, scope: Scope)
      returns (reply: Reply<Reservation>)
      modifies store
      ensures match Decide(old(store.db), req, fp, reserved, now, budget, scope)
        case Some(step) => Step(reply, store.db) == step
        case None => reply == Err(Unavailable)
    {
      var held := Sum(store.db.ops, Held(scope));
      if held > Money.MAX_SAFE {
        return Err(Unavailable);
      }
      var available := Max(0, budget.cap - budget.spent - held);
      if budget.stasis || reserved > available {
        if !budget.stasis {
          match scope {
            case Tenant(t) => store.WriteTenantTrip(t, BudgetBreach);
            case _ => store.WriteTrip(BudgetBreach);
          }
        }
        reply := RecordReservationDenial(req, fp, reserved, now, if budget.stasis then TripReason(budget) else BudgetBreach);
      } else {
        var op := NewOperation(req, fp, reserved, now);
        store.InsertOperation(op);
        reply := Ok(Granted(op));
      }
    }

    method Reserve(req: Request, io: Io) returns (reply: Reply<Reservation>)
      modifies store
      ensures Step(reply, store.db)
        == LedgerSpec.Reserve(old(store.db), req, LedgerRuns.FingerprintOf(sha, req.components), io)
    {
      if !req.components.Valid() {
        return Err(InvalidRequest);
      }
      var before := store.db;
      var fp := LedgerRuns.FingerprintOf(sha, req.components);
      if io.fails {
        return Err(Unavailable);
      }
      var existing := FindId(store.db.ops, req.id);
      if existing.Some? {
        return Ok(Classify(store.db.ops[existing.value], fp, io.now));
      }
      var sibling := FindActive(store.db.ops, fp);
      if sibling.Some? {
        return Ok(Classify(store.db.ops[sibling.value], fp, io.now));
      }
      var budget := store.ReadBudgetRow();
      var price := Money.ToMicrousd(Numbers.ValueOf(req.components.estimateMax), true, Money.Up);
      var ok := false;
      if price.Some? {
        ok := store.InsertAuditIntent(req.id);
      }
      if !ok {
        store.db := before;
        return Err(Unavailable);
      }
      if budget.stasis {
        reply := RecordReservationDenial(req, fp, price.value, io.now, TripReason(budget));
      } else if req.components.tenant.Some? {
        var t := req.components.tenant.value;
        var row := store.EnsureTenantBudget(t);
        reply := DecideUnder(req, fp, price.value, io.now, row, Tenant(t));
      } else {
        reply := DecideUnder(req, fp, price.value, io.now, budget, Everyone);
      }
      if reply.Err? {
        store.db := before;
      }
    }

    method StartExecution(id: OpId, fp: Digest, io: Io) returns (reply: Reply<Operation>)
      modifies store
      ensures Step(reply, store.db) == LedgerSpec.StartExecution(old(store.db), id, fp, io)
    {
      if io.fails {
        return Err(Unavailable);
      }
      var found := FindId(store.db.ops, id);
      if found.None? {
        return Err(InvalidTransition);
      }
      var op := store.db.ops[found.value];
      if op.fingerprint == fp && op.state == Reserved && op.deadline > io.now {
        store.UpdateRow(found.value, Started(op, io.now));
        reply := Ok(Started(op, io.now));
      } else if op.fingerprint != fp {
        reply := Err(Conflict);
      } else if op.state == Reserved && op.deadline <= io.now {
        reply := Err(Expired);
      } else {
        reply := Err(InvalidTransition);
      }
    }

    method Settle(req: Completion, io: Io) returns (reply: Reply<Operation>)
      modifies store
      ensures Step(reply, store.db) == LedgerSpec.Settle(old(store.db), req, io)
    {
      reply := Finish(req, Settled, None, io);
    }

    method Refund(req: Completion, evidence: Option<Evidence>, io: Io) returns (reply: Reply<Operation>)
      modifies store
      ensures Step(reply, store.db) == LedgerSpec.Refund(old(store.db), req, evidence, io)
    {
      reply := Finish(req, Refunded, evidence, io);
    }

    method Finish(req: Completion, target: OpState, evidence: Option<Evidence>, io: Io) returns (reply: Reply<Operation>)
      requires target == Settled || target == Refunded
      modifies store
      ensures Step(reply, store.db) == LedgerSpec.Finish(old(store.db), req, target, evidence, io)
    {
      if req.actual > Money.MAX_SAFE {
        return Err(InvalidRequest);
      }
      if io.fails {
        return Err(Unavailable);
      }
      var before := store.db;
      var found := FindId(store.db.ops, req.id);
      if found.None? {
        return Err(InvalidTransition);
      }
      var current := store.db.ops[found.value];
      if current.fingerprint != req.fp {
        return Err(Conflict);
      }
      if current.state == target {
        return Ok(current);
      }
      var allowed := if target == Settled then current.state == Executing
                     else current.state == Reserved || current.state == Executing;
      if !allowed || (target == Refunded && current.state == Executing && evidence.None?) {
        return Err(InvalidTransition);
      }
      var actual := if target == Settled then req.actual else 0;
      var ok := store.ApplyTerminal(found.value, target, actual, Normalize(req.terminal), evidence, io.now);
      if !ok {
        store.db := before;
        return Err(Unavailable);
      }
      ApplyTerminalMoves(before, found.value, target, actual, Normalize(req.terminal), evidence, io.now);
      reply := Ok(store.db.ops[found.value]);
      store.InsertAuditOutcome(current.id, req.status);
    }

    method MarkInDoubt(id: OpId, fp: Digest, status: AuditStatus, io: Io) returns (reply: Reply<Operation>)
      modifies store
      ensures Step(reply, store.db) == LedgerSpec.MarkInDoubt(old(store.db), id, fp, status, io)
    {
      if io.fails {
        return Err(Unavailable);
      }
      var found := FindId(store.db.ops, id);
      if found.None? {
        return Err(InvalidTransition);
      }
      var current := store.db.ops[found.value];
      if current.fingerprint != fp {
        reply := Err(Conflict);
      } else if current.state == InDoubt {
        reply := Ok(current);
      } else if current.state != Executing {
        reply := Err(InvalidTransition);
      } else {
        store.ApplyInDoubt(found.value, status);
        reply := Ok(store.db.ops[found.value]);
      }
    }

    method Reconcile(req: Reconciliation, actor: Actor, io: Io) returns (reply: Reply<Operation>)
      modifies store
      ensures Step(reply, store.db) == LedgerSpec.Reconcile(old(store.db), req, actor, io)
    {
      if actor != Human {
        return Err(HumanRequired);
      }
      var amount := ResolvedAmount(req.resolution);
      if req.intent == req.id || amount.None? {
        return Err(InvalidRequest);
      }
      if io.fails {
        return Err(Unavailable);
      }
      var before := store.db;
      var found := FindId(store.db.ops, req.id);
      if found.None? {
        return Err(InvalidTransition);
      }
      var current := store.db.ops[found.value];
      var desired := ResolvedState(req.resolution);
      if current.state == desired {
        if current.settled == amount.value && current.evidence == Some(req.evidence) {
          return Ok(current);
        }
        return Err(Conflict);
      }
      if current.state != InDoubt {
        return Err(InvalidTransition);
      }
      var ok := store.InsertAuditIntent(req.intent);
      if !ok {
        return Err(Unavailable);
      }
      var db1 := store.db;
      ok := store.ApplyTerminal(found.value, desired, amount.value, Verbatim(OperationReconciled), Some(req.evidence), io.now);
      AuditDoesNotMatter(before, AuditIntent(req.intent), found.value, desired, amount.value,
                         Verbatim(OperationReconciled), Some(req.evidence), io.now);
      if !ok {
        store.db := before;
        return Err(Unavailable);
      }
      ApplyTerminalMoves(db1, found.value, desired, amount.value, Verbatim(OperationReconciled), Some(req.evidence), io.now);
      reply := Ok(store.db.ops[found.value]);
      store.InsertAuditOutcome(req.intent, Fine);
      assert before.audit + [AuditIntent(req.intent), AuditOutcome(req.intent, Fine)]
          == before.audit + [AuditIntent(req.intent)] + [AuditOutcome(req.intent, Fine)];
    }

    method ResumeTenant(t: Text, actor: Actor, io: Io)
      modifies store
      ensures store.db == LedgerSpec.ResumeTenant(old(store.db), t, actor, Ledger, io)
    {
      if actor != Human || io.fails {
        return;
      }
      var row := store.EnsureTenantBudget(t);
      store.db := store.db.(tenants := store.db.tenants[t := row.(stasis := false, resumedByHuman := true, revision := row.revision + 1)]);
    }

    method TripTenant(t: Text, code: TripCode, io: Io)
      modifies store
      ensures store.db == LedgerSpec.TripTenant(old(store.db), t, code, io)
    {
      if io.fails {
        return;
      }
      var row := store.EnsureTenantBudget(t);
      store.db := store.db.(tenants := store.db.tenants[t := Tripped(row, code)]);
    }

    method Lookup(id: OpId) returns (r: Option<Operation>)
      ensures r.Some? <==> exists i :: 0 <= i < |store.db.ops| && store.db.ops[i].id == id
      ensures r.Some? ==> r.value in store.db.ops && r.value.id == id
    {
      var found := FindId(store.db.ops, id);
      r := if found.Some? then Some(store.db.ops[found.value]) else None;
    }

    /** The body of the reaper's loop. */
    method ExpireRow(i: nat, now: int)
      requires i < |store.db.ops| && Overdue(store.db.ops[i], now)
      modifies store
      ensures store.db == ExpireOne(old(store.db), i, now)
    {
      var current := store.db.ops[i];
      if current.state == Reserved {
        var ok := store.ApplyTerminal(i, Refunded, 0, Verbatim(ReservationExpired), None, now);
        store.InsertAuditOutcome(current.id, Blocked);
      } else {
        store.ApplyInDoubt(i, Failed);
      }
    }

    /** `recoverExpired`: reads the overdue rows once and works through them, within one transaction. */
    method RecoverExpired(batch: nat, io: Io) returns (refunded: seq<OpId>, inDoubt: seq<OpId>)
      requires DistinctIds(store.db.ops)
      modifies store
      ensures store.db == LedgerSpec.RecoverExpired(old(store.db), batch, io)
      ensures var rows := if io.fails then [] else ReadExpired(old(store.db.ops), io.now, batch);
        refunded == IdsIn(old(store.db.ops), rows, Reserved) && inDoubt == IdsIn(old(store.db.ops), rows, Executing)
    {
      refunded, inDoubt := [], [];
      if io.fails {
        return;
      }
      ghost var db0 := store.db;
      var rows := ReadExpired(store.db.ops, io.now, batch);
      ExpiredAreOverdue(db0.ops, io.now, batch);
      var k := 0;
      while k < |rows|
        invariant 0 <= k <= |rows|
        invariant store.db == ExpireAll(db0, rows[..k], io.now)
        invariant refunded == IdsIn(db0.ops, rows[..k], Reserved) && inDoubt == IdsIn(db0.ops, rows[..k], Executing)
      {
        SnapshotStep(db0, rows, k, io.now);
        var current := store.db.ops[rows[k]];
        ExpireRow(rows[k], io.now);
        if current.state == Reserved {
          refunded := refunded + [current.id];
        } else {
          inDoubt := inDoubt + [current.id];
        }
        k := k + 1;
      }
      assert rows[..|rows|] == rows;
      ReaperWorksThroughItsSnapshot(db0, batch, io.now);
    }

    method HasInDoubt() returns (r: bool)
      ensures r <==> LedgerModel.HasInDoubt(store.db.ops)
    {
      r := exists i :: 0 <= i < |store.db.ops| && store.db.ops[i].state == InDoubt;
    }
  }

  /** Appending to the audit log before a terminal write or after it comes to the same. */
  lemma AuditDoesNotMatter(db: Db, e: AuditEvent, i: nat, state: OpState, actual: nat, stored: Stored,
                           evidence: Option<Evidence>, now: int)
    requires i < |db.ops|
    ensures var db1 := db.(audit := db.audit + [e]);
      var r := LedgerModel.ApplyTerminal(db, i, state, actual, stored, evidence, now);
      LedgerModel.ApplyTerminal(db1, i, state, actual, stored, evidence, now)
        == if r.Some? then Some(r.value.(audit := db.audit + [e])) else None
  {
  }

  lemma {:induction false} ExpireAllLeavesOthers(db: Db, rows: seq<nat>, i: nat, now: int)
    requires (forall k :: 0 <= k < |rows| ==> rows[k] < |db.ops| && rows[k] != i) && i < |db.ops|
    ensures |ExpireAll(db, rows, now).ops| == |db.ops| && ExpireAll(db, rows, now).ops[i] == db.ops[i]
    decreases |rows|
  {
    if rows != [] { ExpireAllLeavesOthers(ExpireOne(db, rows[0], now), rows[1..], i, now); }
  }

  /** One turn of the reaper's loop. */
  lemma SnapshotStep(db: Db, rows: seq<nat>, n: nat, now: int)
    requires n < |rows| && (forall k :: 0 <= k < |rows| ==> rows[k] < |db.ops|)
    requires forall j, k :: 0 <= j < k < |rows| ==> rows[j] != rows[k]
    ensures var db1 := ExpireAll(db, rows[..n], now);
      && |db1.ops| == |db.ops| && db1.ops[rows[n]] == db.ops[rows[n]]
      && ExpireAll(db, rows[..n + 1], now) == ExpireOne(db1, rows[n], now)
    ensures forall s ::
      IdsIn(db.ops, rows[..n + 1], s) == IdsIn(db.ops, rows[..n], s) + if db.ops[rows[n]].state == s then [db.ops[rows[n]].id] else []
  {
    ExpireAllLeavesOthers(db, rows[..n], rows[n], now);
    ExpireAllAppended(db, rows[..n], rows[n], now);
    IdsInAppended(db.ops, rows[..n], rows[n]);
    assert rows[..n + 1] == rows[..n] + [rows[n]];
  }

  /** The ids of the listed rows that are in a state. */
  function IdsIn(ops: seq<Operation>, rows: seq<nat>, state: OpState): seq<OpId>
    requires forall k :: 0 <= k < |rows| ==> rows[k] < |ops|
  {
    if rows == [] then []
    else
      var last := ops[rows[|rows| - 1]];
      IdsIn(ops, rows[..|rows| - 1], state) + if last.state == state then [last.id] else []
  }

  lemma IdsInAppended(ops: seq<Operation>, rows: seq<nat>, i: nat)
    requires (forall k :: 0 <= k < |rows| ==> rows[k] < |ops|) && i < |ops|
    ensures forall s :: IdsIn(ops, rows + [i], s) == IdsIn(ops, rows, s) + if ops[i].state == s then [ops[i].id] else []
  {
    assert (rows + [i])[..|rows|] == rows;
  }

  lemma ExpiredAreOverdue(ops: seq<Operation>, now: int, limit: nat)
    requires DistinctIds(ops)
    ensures var rows := ReadExpired(ops, now, limit);
      && (forall k :: 0 <= k < |rows| ==> rows[k] < |ops| && Overdue(ops[rows[k]], now))
      && (forall j, k :: 0 <= j < k < |rows| ==> rows[j] != rows[k])
  {
    OverdueAreByAge(ops, |ops|, now);
    var all, rows := OverdueUpTo(ops, |ops|, now), ReadExpired(ops, now, limit);
    forall j, k | 0 <= j < k < |rows| ensures rows[j] != rows[k] { ByAgeAt(ops, all, j, k); }
  }
}
