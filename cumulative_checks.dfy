/**
 * The ledger checks of the bitcoin-payment function: both compare the
 * address's cumulative received total with the expected amount rounded
 * down to minor units. Every fetch or parse failure reads as "not paid".
 */
module CumulativeChecks {
  import opened Wrappers
  import opened Amounts

  /**
   * `checkBitcoinPayment`: `fundedTxoSum` is Blockstream's
   * `chain_stats.funded_txo_sum` for the address, `None` when the request
   * or the parse fails. Paid when the funded total reaches
   * `floor(expected * 1e8)`.
   */
  function BtcCumulativePaid(fundedTxoSum: Option<int>, expected: real): (paid: bool)
    ensures paid <==> fundedTxoSum.Some? && fundedTxoSum.value as real > expected * MinorPerCoin - 1.0
  {
    if fundedTxoSum.None? then false
    else
      AtLeastMinorUnits(fundedTxoSum.value, expected);
      fundedTxoSum.value >= MinorUnits(expected)
  }

  /**
   * `checkLitecoinPayment`: `dashboard` is Blockchair's `data` object,
   * mapping each address to its `address.received` total in litoshis;
   * `None` when the request or the parse fails. An address with no entry is
   * unpaid; otherwise paid when the received total reaches
   * `floor(expected * 1e8)`.
   */
  function LtcCumulativePaid(dashboard: Option<map<string, int>>, address: string, expected: real): (paid: bool)
    ensures paid <==> dashboard.Some? && address in dashboard.value
                      && dashboard.value[address] as real > expected * MinorPerCoin - 1.0
  {
    if dashboard.None? || address !in dashboard.value then false
    else
      AtLeastMinorUnits(dashboard.value[address], expected);
      dashboard.value[address] >= MinorUnits(expected)
  }

  /** A total of at least the expected amount is always accepted. */
  lemma FullPaymentAccepted(total: int, address: string, expected: real)
    requires total as real >= expected * MinorPerCoin
    ensures BtcCumulativePaid(Some(total), expected)
    ensures LtcCumulativePaid(Some(map[address := total]), address, expected)
  {
  }

  /**
   * Threshold boundary: exactly the rounded-down expected amount is paid,
   * one minor unit less is not, and more never turns "paid" into "not paid".
   */
  lemma CumulativeThreshold(expected: real, total: int, more: int)
    requires total <= more
    ensures BtcCumulativePaid(Some(MinorUnits(expected)), expected)
    ensures !BtcCumulativePaid(Some(MinorUnits(expected) - 1), expected)
    ensures BtcCumulativePaid(Some(total), expected) ==> BtcCumulativePaid(Some(more), expected)
  {
  }
}
