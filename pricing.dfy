/**
 * The EUR exchange-rate fallback chains of the bitcoin-payment function.
 * Each source's reply is a parameter: `None` stands for a failed fetch, an
 * unparsable body or a missing price field.
 */
module Pricing {
  import opened Wrappers

  /** A CoinDesk `bpi.EUR.rate` after removing thousands separators and parsing. */
  type Rate = r: real | r > 0.0 witness 1.0

  /** The static last-resort prices, in EUR per coin. */
  const BtcFallbackPrice: real := 90000.0
  const LtcFallbackPrice: real := 120.0

  /** The chain position that supplied a price. */
  datatype PriceSource = CoinGecko | CoinDesk | Static

  /** CoinGecko's `eur` field is taken only when it is truthy: present and non-zero. */
  predicate GeckoUsable(eur: Option<real>) {
    eur.Some? && eur.value != 0.0
  }

  /** Which source `getBTCPrice` ends up answering from. */
  function BtcSource(gecko: Option<real>, desk: Option<Rate>): (s: PriceSource)
    ensures s == CoinGecko <==> GeckoUsable(gecko)
    ensures s == CoinDesk <==> !GeckoUsable(gecko) && desk.Some?
    ensures s == Static <==> !GeckoUsable(gecko) && desk.None?
  {
    if GeckoUsable(gecko) then CoinGecko else if desk.Some? then CoinDesk else Static
  }

  /**
   * `getBTCPrice`: CoinGecko, then CoinDesk, then 90000. It never fails, and
   * never yields zero, so dividing by it is always defined.
   */
  function BtcPrice(gecko: Option<real>, desk: Option<Rate>): (price: real)
    ensures price != 0.0
    ensures BtcSource(gecko, desk) == CoinGecko ==> price == gecko.value
    ensures BtcSource(gecko, desk) == CoinDesk ==> price == desk.value
    ensures BtcSource(gecko, desk) == Static ==> price == BtcFallbackPrice
  {
    if GeckoUsable(gecko) then gecko.value
    else if desk.Some? then desk.value
    else BtcFallbackPrice
  }

  /** `getLTCPrice`: CoinGecko, then 120. It never fails and never yields zero. */
  function LtcPrice(gecko: Option<real>): (price: real)
    ensures price != 0.0
    ensures GeckoUsable(gecko) ==> price == gecko.value
    ensures !GeckoUsable(gecko) ==> price == LtcFallbackPrice
  {
    if GeckoUsable(gecko) then gecko.value else LtcFallbackPrice
  }

  /** While CoinGecko answers, CoinDesk's reply has no influence on the price. */
  lemma BtcPriceIgnoresFallbackWhenPrimaryAnswers(gecko: Option<real>, d1: Option<Rate>, d2: Option<Rate>)
    requires GeckoUsable(gecko)
    ensures BtcPrice(gecko, d1) == BtcPrice(gecko, d2) == gecko.value
  {
  }

  /**
   * Every BTC price is one of the quotes that some source offered, or the
   * static default: the chain invents no other value.
   */
  lemma BtcPriceIsOffered(gecko: Option<real>, desk: Option<Rate>)
    ensures var p := BtcPrice(gecko, desk);
      (gecko.Some? && p == gecko.value) || (desk.Some? && p == desk.value) || p == BtcFallbackPrice
  {
  }

  /** Prices from well-behaved sources (positive whenever they answer) are positive. */
  lemma PricesPositive(btcGecko: Option<real>, desk: Option<Rate>, ltcGecko: Option<real>)
    requires btcGecko.Some? ==> btcGecko.value >= 0.0
    requires ltcGecko.Some? ==> ltcGecko.value >= 0.0
    ensures BtcPrice(btcGecko, desk) > 0.0 && LtcPrice(ltcGecko) > 0.0
  {
  }
}
