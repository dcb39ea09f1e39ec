/**
 `CapBudgetGovernor` (packages/governance/src/budgetGovernor.ts): the object that reads and rewrites the budget rows and
 the STASIS flag it shares with the ledger. A method that fails leaves the store as it was.
 */
module BudgetGovernor {
  import opened Prelude
  import opened Texts
  import opened Fingerprints
  import opened LedgerModel
  import opened LedgerSpec
  import opened BudgetLedgerStore
  import Money

  class CapBudgetGovernor {
    const store: BudgetLedgerStore

    /** Creates the budget row, in STASIS when the initial spend meets the cap, unless the row exists. */
    constructor (store: BudgetLedgerStore, capUsd: real, spentUsd: real)
      requires Money.ToMicrousd(capUsd, false, Money.Down).Some? && Money.ToMicrousd(spentUsd, true, Money.Up).Some?
      modifies store
      ensures this.store == store
      ensures store.db == OpenGovernor(old(store.db), Money.ToMicrousd(capUsd, false, Money.Down).value,
                                       Money.ToMicrousd(spentUsd, true, Money.Up).value)
    {
      this.store := store;
      var cap := Money.ToMicrousd(capUsd, false, Money.Down).value;
      var spent := Money.ToMicrousd(spentUsd, true, Money.Up).value;
      new;
      if store.db.budget.None? {
        var stasis := spent >= cap;
        store.db := store.db.(budget := Some(Budget(spent, cap, stasis, if stasis then Some(BudgetBreach) else None, false, 0)));
      }
    }

    method Check(estimateUsd: real, io: Io) returns (reply: Reply<Verdict>)
      modifies store
      ensures match Money.ToMicrousd(estimateUsd, true, Money.Up)
        case None => reply == Err(InvalidRequest) && store.db == old(store.db)
        case Some(estimate) => Step(reply, store.db) == LedgerSpec.Check(old(store.db), estimate, io)
    {
      var estimate := Money.ToMicrousd(estimateUsd, true, Money.Up);
      if estimate.None? {
        return Err(InvalidRequest);
      }
      if io.fails || store.db.budget.None? {
        return Err(Unavailable);
      }
      var row := store.db.budget.value;
      var remaining := Max(0, row.cap - row.spent);
      if row.stasis {
        return Ok(Stopped(TripReason(row)));
      }
      if row.spent + estimate.value > row.cap {
        store.WriteTrip(BudgetBreach);
        return Ok(Stopped(BudgetBreach));
      }
      reply := Ok(Allowed(remaining - estimate.value));
    }

    method CheckTenant(t: Text, estimateUsd: real, io: Io) returns (reply: Reply<Verdict>)
      modifies store
      ensures match Money.ToMicrousd(estimateUsd, true, Money.Up)
        case None => reply == Err(InvalidRequest) && store.db == old(store.db)
        case Some(estimate) => Step(reply, store.db) == LedgerSpec.CheckTenant(old(store.db), t, estimate, io)
    {
      var estimate := Money.ToMicrousd(estimateUsd, true, Money.Up);
      if estimate.None? {
        return Err(InvalidRequest);
      }
      if io.fails || store.db.budget.None? {
        return Err(Unavailable);
      }
      var platform := store.db.budget.value;
      if platform.stasis {
        return Ok(Stopped(TripReason(platform)));
      }
      var row := store.EnsureTenantBudget(t);
      var remaining := Max(0, row.cap - row.spent);
      if row.stasis {
        return Ok(Stopped(TripReason(row)));
      }
      if row.spent + estimate.value > row.cap {
        store.WriteTenantTrip(t, BudgetBreach);
        return Ok(Stopped(BudgetBreach));
      }
      reply := Ok(Allowed(remaining - estimate.value));
    }

    method Trip(code: TripCode, io: Io)
      modifies store
      ensures store.db == LedgerSpec.Trip(old(store.db), code, io)
    {
      if !io.fails {
        store.WriteTrip(code);
      }
    }

    method RecordSpend(amountUsd: real, io: Io)
      modifies store
      ensures match Money.ToMicrousd(amountUsd, true, Money.Up)
        case None => store.db == old(store.db)
        case Some(amount) => store.db == LedgerSpec.RecordSpend(old(store.db), amount, io)
    {
      var amount := Money.ToMicrousd(amountUsd, true, Money.Up);
      if amount.None? || io.fails || store.db.budget.None? {
        return;
      }
      var row := store.db.budget.value;
      var spent := row.spent + amount.value;
      if spent > Money.MAX_SAFE {
        return;
      }
      var shouldTrip := spent >= row.cap && !row.stasis;
      store.db := store.db.(budget := Some(Budget(
        spent, row.cap,
        shouldTrip || row.stasis,
        if shouldTrip then Some(BudgetBreach) else row.trip,
        !shouldTrip && row.resumedByHuman,
        row.revision + 1)));
    }

    method RecordTenantSpend(t: Text, amountUsd: real, io: Io)
      modifies store
      ensures match Money.ToMicrousd(amountUsd, true, Money.Up)
        case None => store.db == old(store.db)
        case Some(amount) => store.db == LedgerSpec.RecordTenantSpend(old(store.db), t, amount, io)
    {
      var amount := Money.ToMicrousd(amountUsd, true, Money.Up);
      if amount.None? || io.fails || store.db.budget.None? {
        return;
      }
      var before := store.db;
      var row := store.EnsureTenantBudget(t);
      var spent := row.spent + amount.value;
      if spent > Money.MAX_SAFE {
        store.db := before;
        return;
      }
      var shouldTrip := spent >= row.cap && !row.stasis;
      store.db := store.db.(tenants := store.db.tenants[t := Budget(
        spent, row.cap,
        shouldTrip || row.stasis,
        if shouldTrip then Some(BudgetBreach) else row.trip,
        !shouldTrip && row.resumedByHuman,
        row.revision + 1)]);
    }

    /** Human-only, and refused while any operation is in doubt. */
    method Resume(actor: Actor, io: Io)
      modifies store
      ensures store.db == LedgerSpec.Resume(old(store.db), actor, io)
    {
      if actor != Human || io.fails {
        return;
      }
      var unresolved := exists i :: 0 <= i < |store.db.ops| && store.db.ops[i].state == InDoubt;
      if unresolved || store.db.budget.None? {
        return;
      }
      var row := store.db.budget.value;
      store.db := store.db.(budget := Some(row.(stasis := false, resumedByHuman := row.trip.Some?, revision := row.revision + 1)));
    }

    method ResumeTenant(t: Text, actor: Actor, io: Io)
      modifies store
      ensures store.db == LedgerSpec.ResumeTenant(old(store.db), t, actor, Governor, io)
    {
      if actor != Human || io.fails {
        return;
      }
      var row := store.EnsureTenantBudget(t);
      store.db := store.db.(tenants := store.db.tenants[t :=
        row.(stasis := false, resumedByHuman := row.trip.Some?, revision := row.revision + 1)]);
    }

    method SetTenantCap(t: Text, capUsd: real, io: Io)
      modifies store
      ensures match Money.ToMicrousd(capUsd, false, Money.Down)
        case None => store.db == old(store.db)
        case Some(cap) => store.db == LedgerSpec.SetTenantCap(old(store.db), t, cap, io)
    {
      var cap := Money.ToMicrousd(capUsd, false, Money.Down);
      if cap.None? || io.fails {
        return;
      }
      var row := store.EnsureTenantBudget(t);
      store.db := store.db.(tenants := store.db.tenants[t := row.(cap := cap.value, revision := row.revision + 1)]);
    }
  }
}
