/**
 The store in its own form: an object whose methods rewrite the durable rows one statement at a time
 (packages/governance/src/budgetLedgerStore.ts). A transaction saves the rows and puts them back when it fails.
 */
module BudgetLedgerStore {
  import opened Prelude
  import opened Texts
  import opened Hashing
  import opened LedgerModel
  import opened LedgerSpec
  import opened LedgerRows
  import Money

  class BudgetLedgerStore {
    var db: Db

    constructor (db: Db)
      ensures this.db == db
    {
      this.db := db;
    }

    /** `readBudgetRow`, which creates the row it does not find. */
    method ReadBudgetRow() returns (row: Budget)
      modifies this
      ensures db == EnsureBudget(old(db)) && db.budget == Some(row)
    {
      if db.budget.None? {
        db := db.(budget := Some(Budget(0, DEFAULT_CAP, false, None, false, 0)));
      }
      row := db.budget.value;
    }

    method EnsureTenantBudget(t: Text) returns (row: Budget)
      modifies this
      ensures db == EnsureTenant(old(db), t) && db.tenants[t] == row
    {
      var platform := ReadBudgetRow();
      if t !in db.tenants {
        db := db.(tenants := db.tenants[t := Budget(0, platform.cap, false, None, false, 0)]);
      }
      row := db.tenants[t];
    }

    method InsertOperation(op: Operation)
      modifies this
      ensures db == old(db).(ops := old(db.ops) + [op])
    {
      db := db.(ops := db.ops + [op]);
    }

    /** Inserts an audit intent; the id of an intent is unique. */
    method InsertAuditIntent(id: OpId) returns (ok: bool)
      modifies this
      ensures ok <==> !HasIntent(old(db.audit), id)
      ensures db == if ok then old(db).(audit := old(db.audit) + [AuditIntent(id)]) else old(db)
    {
      ok := AuditIntent(id) !in db.audit;
      if ok {
        assert !HasIntent(db.audit, id);
        db := db.(audit := db.audit + [AuditIntent(id)]);
      }
    }

    method InsertAuditOutcome(intent: OpId, status: AuditStatus)
      modifies this
      ensures db == old(db).(audit := old(db.audit) + [AuditOutcome(intent, status)])
    {
      db := db.(audit := db.audit + [AuditOutcome(intent, status)]);
    }

    method UpdateRow(i: nat, op: Operation)
      requires i < |db.ops|
      modifies this
      ensures db == old(db).(ops := old(db.ops)[i := op])
    {
      db := db.(ops := db.ops[i := op]);
    }

    method WriteTrip(code: TripCode)
      modifies this
      ensures db == LedgerModel.WriteTrip(old(db), code)
    {
      if db.budget.Some? {
        db := db.(budget := Some(Tripped(db.budget.value, code)));
      }
    }

    method WriteTenantTrip(t: Text, code: TripCode)
      modifies this
      ensures db == LedgerModel.WriteTenantTrip(old(db), t, code)
    {
      if t in db.tenants {
        db := db.(tenants := db.tenants[t := Tripped(db.tenants[t], code)]);
      }
    }

    /** `recordSettlement`: false stands for the error that rolls the transaction back. */
    method RecordSettlement(op: Operation, actual: nat) returns (ok: bool)
      modifies this
      ensures var db1 := EnsureBudget(old(db));
        var charged := Charge(db1.budget.value, actual, op.reserved, op.components.tenant.None?);
        ok == charged.Some? && (ok ==> db == db1.(budget := charged))
    {
      var row := ReadBudgetRow();
      var spent := row.spent + actual;
      if spent > Money.MAX_SAFE {
        return false;
      }
      var trip: Option<TripCode> := None;
      if op.components.tenant.None? && spent >= row.cap {
        trip := Some(BudgetBreach);
      } else if actual > op.reserved {
        trip := Some(ComplianceDrift);
      }
      row := row.(spent := spent, revision := row.revision + 1);
      if trip.Some? {
        row := row.(stasis := true, trip := trip, resumedByHuman := false);
      }
      db := db.(budget := Some(row));
      ok := true;
    }

    method RecordTenantSettlement(t: Text, op: Operation, actual: nat) returns (ok: bool)
      modifies this
      ensures var db1 := EnsureTenant(old(db), t);
        var charged := Charge(db1.tenants[t], actual, op.reserved, true);
        ok == charged.Some? && (ok ==> db == db1.(tenants := db1.tenants[t := charged.value]))
    {
      var row := EnsureTenantBudget(t);
      var spent := row.spent + actual;
      if spent > Money.MAX_SAFE {
        return false;
      }
      var trip: Option<TripCode> := None;
      if spent >= row.cap {
        trip := Some(BudgetBreach);
      } else if actual > op.reserved {
        trip := Some(ComplianceDrift);
      }
      row := row.(spent := spent, revision := row.revision + 1);
      if trip.Some? {
        row := row.(stasis := true, trip := trip, resumedByHuman := false);
      }
      db := db.(tenants := db.tenants[t := row]);
      ok := true;
    }

    /** `applyTerminal`. */
    method ApplyTerminal(i: nat, state: OpState, actual: nat, stored: Stored, evidence: Option<Evidence>, now: int) returns (ok: bool)
      requires i < |db.ops|
      modifies this
      ensures var r := LedgerModel.ApplyTerminal(old(db), i, state, actual, stored, evidence, now);
        ok == r.Some? && (ok ==> db == r.value)
    {
      var op := db.ops[i];
      UpdateRow(i, Ended(op, state, actual, stored, evidence, now));
      ok := true;
      if state == Settled {
        ok := RecordSettlement(op, actual);
        if ok && op.components.tenant.Some? {
          ok := RecordTenantSettlement(op.components.tenant.value, op, actual);
        }
      }
    }

    /** The statements that `markInDoubt` and `expireExecuting` share. */
    method ApplyInDoubt(i: nat, status: AuditStatus)
      requires i < |db.ops|
      modifies this
      ensures db == LedgerModel.ApplyInDoubt(old(db), i, status)
    {
      var op := db.ops[i];
      UpdateRow(i, Doubted(op));
      if op.components.tenant.Some? {
        WriteTenantTrip(op.components.tenant.value, ComplianceDrift);
      } else {
        WriteTrip(ComplianceDrift);
      }
      InsertAuditOutcome(op.id, status);
    }
  }
}
