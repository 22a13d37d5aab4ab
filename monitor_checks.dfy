/**
 * The ledger checks of the bitcoin-monitor sweep. Unlike the on-demand
 * checks, these look for an amount within a tolerance of the expected one
 * rather than at least it: per confirmed output for Bitcoin, on the
 * cumulative received total for Litecoin. A non-ok response or a thrown
 * error reads as "not paid".
 */
module MonitorChecks {
  import opened Wrappers
  import opened Amounts
  import CumulativeChecks

  /** One `vout` entry: `scriptpubkey_address` and `value` in satoshis. */
  datatype Output = Output(address: string, value: int)

  /** One Blockstream transaction: `status.confirmed` and its outputs. */
  datatype Tx = Tx(confirmed: bool, outputs: seq<Output>)

  /** An output pays the bound address an amount within the tolerance. */
  predicate OutputMatches(out: Output, address: string, expected: real) {
    out.address == address && WithinTolerance(out.value, expected)
  }

  /** A confirmed transaction with a matching output. */
  predicate TxMatches(tx: Tx, address: string, expected: real) {
    tx.confirmed && exists m :: 0 <= m < |tx.outputs| && OutputMatches(tx.outputs[m], address, expected)
  }

  /** Some transaction of the list settles the order. */
  predicate HasMatchingOutput(txs: seq<Tx>, address: string, expected: real) {
    exists k :: 0 <= k < |txs| && TxMatches(txs[k], address, expected)
  }

  /**
   * `checkBitcoinPayment` of the sweep: scan the address's transactions,
   * skipping unconfirmed ones, and stop at the first output to the bound
   * address whose value is within 0.00001 BTC of the expected amount.
   */
  method CheckBitcoinOutputs(txsReply: Option<seq<Tx>>, address: string, expected: real) returns (paid: bool)
    ensures paid <==> txsReply.Some? && HasMatchingOutput(txsReply.value, address, expected)
  {
    if txsReply.None? {
      return false;
    }
    var txs := txsReply.value;
    var i := 0;
    while i < |txs|
      invariant 0 <= i <= |txs|
      invariant forall k :: 0 <= k < i ==> !TxMatches(txs[k], address, expected)
    {
      var tx := txs[i];
      if tx.confirmed {
        var j := 0;
        while j < |tx.outputs|
          invariant 0 <= j <= |tx.outputs|
          invariant forall m :: 0 <= m < j ==> !OutputMatches(tx.outputs[m], address, expected)
        {
          var out := tx.outputs[j];
          if out.address == address {
            if Abs(out.value as real / MinorPerCoin - expected) < Tolerance {
              assert OutputMatches(tx.outputs[j], address, expected);
              assert TxMatches(txs[i], address, expected);
              return true;
            }
          }
          j := j + 1;
        }
      }
      i := i + 1;
    }
    return false;
  }

  /**
   * `checkLitecoinPayment` of the sweep: the address's Blockchair entry
   * must exist and its cumulative `received` total must lie within 0.00001
   * LTC of the expected amount.
   */
  function LtcWithinTolerance(dashboard: Option<map<string, int>>, address: string, expected: real): (paid: bool)
    ensures paid <==> dashboard.Some? && address in dashboard.value
                      && expected * MinorPerCoin - 1000.0 < dashboard.value[address] as real < expected * MinorPerCoin + 1000.0
  {
    dashboard.Some? && address in dashboard.value && WithinTolerance(dashboard.value[address], expected)
  }

  /** The transactions of a list that are confirmed, in order. */
  function ConfirmedOnly(txs: seq<Tx>): (r: seq<Tx>)
    ensures |r| <= |txs|
  {
    if txs == [] then []
    else if txs[0].confirmed then [txs[0]] + ConfirmedOnly(txs[1..])
    else ConfirmedOnly(txs[1..])
  }

  /** `ConfirmedOnly` keeps exactly the confirmed transactions. */
  lemma {:induction false} ConfirmedOnlyMembers(txs: seq<Tx>)
    ensures forall tx :: tx in ConfirmedOnly(txs) <==> tx in txs && tx.confirmed
  {
    if txs != [] {
      ConfirmedOnlyMembers(txs[1..]);
      assert txs == [txs[0]] + txs[1..];
    }
  }

  /**
   * Unconfirmed transactions never count: deleting every one of them from
   * the explorer's list does not change the verdict.
   */
  lemma UnconfirmedIgnored(txs: seq<Tx>, address: string, expected: real)
    ensures HasMatchingOutput(txs, address, expected) <==> HasMatchingOutput(ConfirmedOnly(txs), address, expected)
  {
    var c := ConfirmedOnly(txs);
    ConfirmedOnlyMembers(txs);
    if HasMatchingOutput(txs, address, expected) {
      var k :| 0 <= k < |txs| && TxMatches(txs[k], address, expected);
      assert txs[k] in c;
      var k' :| 0 <= k' < |c| && c[k'] == txs[k];
    }
    if HasMatchingOutput(c, address, expected) {
      var k :| 0 <= k < |c| && TxMatches(c[k], address, expected);
      assert c[k] in txs;
      var k' :| 0 <= k' < |txs| && txs[k'] == c[k];
    }
  }

  /** Outputs to other addresses never count, however much they carry. */
  lemma OtherAddressesIgnored(txs: seq<Tx>, address: string, expected: real)
    requires forall k, m :: 0 <= k < |txs| && 0 <= m < |txs[k].outputs| ==> txs[k].outputs[m].address != address
    ensures !HasMatchingOutput(txs, address, expected)
  {
  }

  /**
   * An output paying 1000 satoshis or more above the expected amount never
   * matches, in whatever transaction it stands: the window is two-sided.
   */
  lemma OverpaymentRejected(out: Output, address: string, expected: real)
    requires out.value as real >= expected * MinorPerCoin + 1000.0
    ensures !OutputMatches(out, address, expected)
  {
  }

  /**
   * The two Litecoin checks disagree on an address whose cumulative total
   * has run 1000 litoshis or more past the expected amount: the on-demand
   * check accepts it, the sweep's never does.
   */
  lemma LtcCheckersDisagreeOnOverpaidTotal(dashboard: map<string, int>, address: string, expected: real)
    requires address in dashboard
    requires dashboard[address] as real >= expected * MinorPerCoin + 1000.0
    ensures CumulativeChecks.LtcCumulativePaid(Some(dashboard), address, expected)
    ensures !LtcWithinTolerance(Some(dashboard), address, expected)
  {
  }

  /**
   * An expected 0.002 BTC: one confirmed output of 200000 satoshis to the
   * address settles it; 199000 satoshis (exactly 0.00001 short), the same
   * amount unconfirmed, or the same amount to another address do not.
   */
  lemma SettleScenario(address: string, other: string)
    requires other != address
    ensures HasMatchingOutput([Tx(true, [Output(address, 200000)])], address, 0.002)
    ensures !HasMatchingOutput([Tx(true, [Output(address, 199000)])], address, 0.002)
    ensures !HasMatchingOutput([Tx(false, [Output(address, 200000)])], address, 0.002)
    ensures !HasMatchingOutput([Tx(true, [Output(other, 200000)])], address, 0.002)
  {
    var paying := Tx(true, [Output(address, 200000)]);
    assert OutputMatches(paying.outputs[0], address, 0.002);
    assert TxMatches([paying][0], address, 0.002);
    assert !OutputMatches(Output(address, 199000), address, 0.002);
  }
}
