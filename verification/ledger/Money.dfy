/**
 Micro-USD amounts: directed rounding of prices in exact arithmetic, with the range checks of the source.
 */
module Money {
  import opened Prelude

  const MICRO_USD_PER_USD: real := 1000000.0
  const MAX_SAFE: nat := 9007199254740991

  datatype Rounding = Up | Down

  function Ceiling(x: real): int { -((-x).Floor) }

  /** The conversion of packages/governance/src/money.ts. None stands for a thrown error. */
  function ToMicrousd(value: real, allowZero: bool, rounding: Rounding): Option<nat> {
    if value < 0.0 || (!allowZero && value == 0.0) then None
    else
      var scaled := value * MICRO_USD_PER_USD;
      var microusd := if rounding == Up then Ceiling(scaled) else scaled.Floor;
      if microusd > MAX_SAFE || (!allowZero && microusd == 0) then None else Some(microusd)
  }

  /** The conversion the executor applies when it settles, packages/core/src/toolExecutionTypes.ts. */
  function ExecutorMicrousd(value: real): Option<nat> {
    var amount := Ceiling(value * MICRO_USD_PER_USD);
    if 0 <= amount <= MAX_SAFE then Some(amount) else None
  }

  function FromMicrousd(amount: nat): real {
    (amount as real) / MICRO_USD_PER_USD
  }

  /**
   The bounds the request schema puts on the amount of a reconciliation (packages/contracts/src/ledger.ts) are exactly
   those of the conversion: an amount that cannot be converted never reaches the transaction.
   */
  lemma SchemaAmountsConvert(usd: real)
    ensures ToMicrousd(usd, true, Up).Some? <==> 0.0 <= usd <= (MAX_SAFE as real) / MICRO_USD_PER_USD
  {
  }

  /** Rounding is directed and tight: an estimate or charge is never rounded below the price, a cap never above it. */
  lemma RoundingIsDirected(value: real, allowZero: bool, rounding: Rounding)
    requires ToMicrousd(value, allowZero, rounding).Some?
    ensures var m := ToMicrousd(value, allowZero, rounding).value as real;
      if rounding == Up then m - 1.0 < value * MICRO_USD_PER_USD <= m else m <= value * MICRO_USD_PER_USD < m + 1.0
  {
  }

  /** Amounts survive the trip to dollars and back, whichever way they are rounded. */
  lemma AmountsRoundTrip(amount: nat, allowZero: bool, rounding: Rounding)
    requires amount <= MAX_SAFE && (allowZero || amount > 0)
    ensures ToMicrousd(FromMicrousd(amount), allowZero, rounding) == Some(amount)
  {
    assert FromMicrousd(amount) * MICRO_USD_PER_USD == amount as real;
  }

  /** Reserving and settling a price that is not negative take the same ceiling, and reject the same prices. */
  lemma SettlementMatchesReservation(value: real)
    requires value >= 0.0
    ensures ExecutorMicrousd(value) == ToMicrousd(value, true, Up)
  {
  }
}
