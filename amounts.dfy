/**
 * Coin amounts. Amounts travel as decimal whole coins (BTC, LTC), explorers
 * report integer minor units (satoshi, litoshi). Real arithmetic stands in
 * for the source's floating point.
 */
module Amounts {

  /** Minor units per whole coin, for Bitcoin and Litecoin alike. */
  const MinorPerCoin: real := 100000000.0

  /** The sweep's explorer checks accept a difference below this many whole coins. */
  const Tolerance: real := 0.00001

  function Abs(x: real): (r: real)
    ensures r >= 0.0
    ensures r == x || r == -x
  {
    if x < 0.0 then -x else x
  }

  /** `Math.floor(amount * 100000000)`: an amount in whole minor units, rounded down. */
  function MinorUnits(amount: real): (m: int)
    ensures m as real <= amount * MinorPerCoin < m as real + 1.0
  {
    (amount * MinorPerCoin).Floor
  }

  /**
   * A reported minor-unit total reaches the rounded-down expected amount
   * exactly when it exceeds the unrounded expected amount minus one unit.
   */
  lemma AtLeastMinorUnits(received: int, amount: real)
    ensures received >= MinorUnits(amount) <==> received as real > amount * MinorPerCoin - 1.0
  {
    var m := MinorUnits(amount);
    if received as real > amount * MinorPerCoin - 1.0 {
      assert (received + 1) as real > m as real;
    }
  }

  /** Rounding down to minor units preserves order. */
  lemma MinorUnitsMonotone(a: real, b: real)
    requires a <= b
    ensures MinorUnits(a) <= MinorUnits(b)
  {
    var ma, mb := MinorUnits(a), MinorUnits(b);
    assert ma as real <= a * MinorPerCoin <= b * MinorPerCoin < mb as real + 1.0;
  }

  /**
   * `Math.abs(minor / 100000000 - expected) < 0.00001`: the received minor
   * units are within the tolerance of the expected whole-coin amount, which
   * is a window of fewer than 1000 minor units either side.
   */
  function WithinTolerance(minor: int, expected: real): (ok: bool)
    ensures ok <==> Abs(minor as real - expected * MinorPerCoin) < 1000.0
    ensures ok <==> expected * MinorPerCoin - 1000.0 < minor as real < expected * MinorPerCoin + 1000.0
  {
    Abs(minor as real / MinorPerCoin - expected) < Tolerance
  }
}
