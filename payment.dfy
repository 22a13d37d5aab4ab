/**
 * The bitcoin-payment edge function: quoting an order in a coin
 * (`create-payment`) and checking it on demand (`check-payment`).
 */
module PaymentFunction {
  import opened Wrappers
  import opened Orders
  import opened Pricing
  import opened CumulativeChecks

  /** `BITCOIN_WALLET_ADDRESS` and `LITECOIN_WALLET_ADDRESS` from the environment. */
  datatype Config = Config(btcWallet: Option<string>, ltcWallet: Option<string>)

  /** The price sources' replies at quoting time. */
  datatype PriceReplies = PriceReplies(btcGecko: Option<real>, btcDesk: Option<Rate>, ltcGecko: Option<real>)

  datatype PaymentError =
    | UnsupportedCurrency
    | WalletNotConfigured(coin: Coin)
    | OrderUpdateFailed
    | OrderIdRequired
    | OrderNotFound

  /** The `create-payment` response: address, coin amount and EUR amount. */
  datatype PaymentQuote = PaymentQuote(coin: Coin, address: string, cryptoAmount: real, fiatAmount: real)

  /** The configured wallet setting for a coin. */
  function Wallet(cfg: Config, coin: Coin): (w: Option<string>) {
    match coin
    case Bitcoin => cfg.btcWallet
    case Litecoin => cfg.ltcWallet
  }

  /**
   * `generatePaymentAddress`: the configured wallet address of the coin; an
   * unset or empty setting is a configuration error.
   */
  function PaymentAddress(cfg: Config, coin: Coin): (r: Result<string, PaymentError>)
    ensures r.Success? <==> TruthyText(Wallet(cfg, coin))
    ensures r.Success? ==> Wallet(cfg, coin) == Some(r.value) && r.value != ""
    ensures r.Failure? ==> r.error == WalletNotConfigured(coin)
  {
    var w := Wallet(cfg, coin);
    if w.None? || w.value == "" then Failure(WalletNotConfigured(coin)) else Success(w.value)
  }

  /**
   * The request body's `currency` member: left out (`undefined`), JSON
   * `null`, or a string. Destructuring defaults only the first.
   */
  datatype CurrencyField = Absent | Null | Named(name: string)

  /** The requested coin: bitcoin when `currency` is absent, none for an unsupported value. */
  function RequestedCoin(currency: CurrencyField): (r: Option<Coin>)
    ensures r == Some(Bitcoin) <==> currency == Absent || currency == Named("bitcoin")
    ensures r == Some(Litecoin) <==> currency == Named("litecoin")
  {
    match currency
    case Absent => Some(Bitcoin)
    case Null => None
    case Named(c) => if c == "bitcoin" then Some(Bitcoin) else if c == "litecoin" then Some(Litecoin) else None
  }

  /** The EUR price the quoting path fetches for a coin. */
  function CoinPrice(coin: Coin, prices: PriceReplies): (p: real)
    ensures p != 0.0
    ensures coin == Bitcoin && !GeckoUsable(prices.btcGecko) && prices.btcDesk.None? ==> p == BtcFallbackPrice
    ensures coin == Litecoin && !GeckoUsable(prices.ltcGecko) ==> p == LtcFallbackPrice
    ensures coin == Litecoin ==> (GeckoUsable(prices.ltcGecko) ==> p == prices.ltcGecko.value)
  {
    match coin
    case Bitcoin => BtcPrice(prices.btcGecko, prices.btcDesk)
    case Litecoin => LtcPrice(prices.ltcGecko)
  }

  /**
   * Everything `create-payment` computes before its write: the coin, the
   * amount `amount / price` and the wallet address, or the error it throws.
   */
  function QuotePayment(amount: real, currency: CurrencyField, cfg: Config, prices: PriceReplies)
    : (r: Result<PaymentQuote, PaymentError>)
    ensures RequestedCoin(currency).None? <==> r == Failure(UnsupportedCurrency)
    ensures RequestedCoin(currency).Some? ==>
              var coin := RequestedCoin(currency).value;
              (r.Success? <==> TruthyText(Wallet(cfg, coin)))
              && (r.Failure? ==> r.error == WalletNotConfigured(coin))
    ensures r.Success? ==>
              && Some(r.value.coin) == RequestedCoin(currency)
              && Wallet(cfg, r.value.coin) == Some(r.value.address)
              && r.value.cryptoAmount * CoinPrice(r.value.coin, prices) == amount
              && r.value.fiatAmount == amount
  {
    match RequestedCoin(currency)
    case None => Failure(UnsupportedCurrency)
    case Some(coin) =>
      var crypto := amount / CoinPrice(coin, prices);
      match PaymentAddress(cfg, coin)
      case Failure(e) => Failure(e)
      case Success(address) => Success(PaymentQuote(coin, address, crypto, amount))
  }

  /** The binding columns a quote writes. */
  function BindingPatch(q: PaymentQuote): (p: Patch)
    ensures forall o :: Apply(o, p).status == Pending
    ensures q.coin == Bitcoin ==>
              forall o :: Apply(o, p).btcAddress == Some(q.address) && Apply(o, p).btcAmount == Some(q.cryptoAmount)
                          && Apply(o, p).ltcAddress == o.ltcAddress && Apply(o, p).ltcAmount == o.ltcAmount
    ensures q.coin == Litecoin ==>
              forall o :: Apply(o, p).ltcAddress == Some(q.address) && Apply(o, p).ltcAmount == Some(q.cryptoAmount)
                          && Apply(o, p).btcAddress == o.btcAddress && Apply(o, p).btcAmount == o.btcAmount
  {
    match q.coin
    case Bitcoin => BindBitcoin(q.address, q.cryptoAmount)
    case Litecoin => BindLitecoin(q.address, q.cryptoAmount)
  }

  /**
   * `create-payment`: quote, then write the coin's address and amount with
   * `payment_status = 'pending'`. A failed write is an error; a write that
   * matches no order still answers with the quote.
   */
  method CreatePayment(store: OrderStore, orderId: string, amount: real, currency: CurrencyField,
                       cfg: Config, prices: PriceReplies, writeOk: bool)
    returns (r: Result<PaymentQuote, PaymentError>)
    requires store.Valid()
    modifies store
    ensures store.Valid()
    ensures QuotePayment(amount, currency, cfg, prices).Failure? ==>
              r == QuotePayment(amount, currency, cfg, prices) && store.orders == old(store.orders)
    ensures QuotePayment(amount, currency, cfg, prices).Success? ==>
              var q := QuotePayment(amount, currency, cfg, prices).value;
              && r == (if writeOk then Success(q) else Failure(OrderUpdateFailed))
              && store.orders == (if writeOk && orderId in old(store.orders)
                                  then old(store.orders)[orderId := Apply(old(store.orders)[orderId], BindingPatch(q))]
                                  else old(store.orders))
  {
    var quote := QuotePayment(amount, currency, cfg, prices);
    if quote.Failure? {
      return quote;
    }
    var failed := store.Update(orderId, BindingPatch(quote.value), writeOk);
    if failed {
      return Failure(OrderUpdateFailed);
    }
    r := quote;
  }

  /**
   * The ledger decision for an order that is not yet confirmed: a bitcoin
   * binding is checked against Blockstream, otherwise a litecoin binding
   * against Blockchair, otherwise the order is unpaid.
   */
  function OnDemandPaid(o: Order, fundedTxoSum: Option<int>, dashboard: Option<map<string, int>>): (paid: bool)
    ensures BtcBound(o) ==> (paid <==> BtcCumulativePaid(fundedTxoSum, o.btcAmount.value))
    ensures !BtcBound(o) && LtcBound(o) ==>
              (paid <==> LtcCumulativePaid(dashboard, o.ltcAddress.value, o.ltcAmount.value))
    ensures paid ==> BtcBound(o) || LtcBound(o)
  {
    if BtcBound(o) then BtcCumulativePaid(fundedTxoSum, o.btcAmount.value)
    else if LtcBound(o) then LtcCumulativePaid(dashboard, o.ltcAddress.value, o.ltcAmount.value)
    else false
  }

  /** The `paid` answer of `check-payment` for an existing order. */
  function PaidAnswer(o: Order, fundedTxoSum: Option<int>, dashboard: Option<map<string, int>>): (paid: bool) {
    o.status == Confirmed || OnDemandPaid(o, fundedTxoSum, dashboard)
  }

  /** `!orderId`: an absent or empty order id. */
  predicate MissingId(orderId: Option<string>)
    ensures !MissingId(orderId) ==> orderId.Some? && |orderId.value| > 0
    ensures MissingId(orderId) ==> orderId.None? || |orderId.value| == 0
  {
    orderId.None? || orderId.value == ""
  }

  /**
   * `check-payment`. A failed order read (`readOk` false) is reported as an
   * unknown order. A confirmed order answers paid without consulting the
   * ledger or writing. Otherwise the explorer decides; when it says paid,
   * the order is marked confirmed at `now` (a failed write is only logged,
   * and the answer is still paid); when it says unpaid, nothing changes.
   */
  method CheckPayment(store: OrderStore, orderId: Option<string>, fundedTxoSum: Option<int>,
                      dashboard: Option<map<string, int>>, readOk: bool, writeOk: bool, now: nat)
    returns (r: Result<bool, PaymentError>)
    requires store.Valid()
    modifies store
    ensures store.Valid()
    ensures MissingId(orderId) <==> r == Failure(OrderIdRequired)
    ensures !MissingId(orderId) && (!readOk || orderId.value !in old(store.orders)) ==>
              r == Failure(OrderNotFound)
    ensures !MissingId(orderId) && readOk && orderId.value in old(store.orders) ==>
              r == Success(PaidAnswer(old(store.orders)[orderId.value], fundedTxoSum, dashboard))
    ensures store.orders ==
              if && !MissingId(orderId) && readOk && orderId.value in old(store.orders)
                 && old(store.orders)[orderId.value].status == Pending
                 && OnDemandPaid(old(store.orders)[orderId.value], fundedTxoSum, dashboard)
                 && writeOk
              then old(store.orders)[orderId.value := Apply(old(store.orders)[orderId.value], MarkConfirmed(now))]
              else old(store.orders)
  {
    if orderId.None? || orderId.value == "" {
      return Failure(OrderIdRequired);
    }
    var id := orderId.value;
    var found := store.Get(id);
    if !readOk || found.None? {
      return Failure(OrderNotFound);
    }
    var order := found.value;
    if order.status == Confirmed {
      return Success(true);
    }
    var isPaid := OnDemandPaid(order, fundedTxoSum, dashboard);
    if isPaid {
      var failed := store.Update(id, MarkConfirmed(now), writeOk);
    }
    r := Success(isPaid);
  }

  /**
   * An order holding both bindings (quoted in bitcoin, then in litecoin) is
   * decided by the bitcoin explorer alone: the litecoin reply is ignored.
   */
  lemma BitcoinBindingTakesPrecedence(o: Order, fundedTxoSum: Option<int>,
                                      d1: Option<map<string, int>>, d2: Option<map<string, int>>)
    requires BtcBound(o) && LtcBound(o)
    ensures OnDemandPaid(o, fundedTxoSum, d1) == OnDemandPaid(o, fundedTxoSum, d2)
  {
  }

  /** An order without a truthy binding is never reported paid while pending. */
  lemma UnboundNeverPaid(o: Order, fundedTxoSum: Option<int>, dashboard: Option<map<string, int>>)
    requires o.status == Pending && !BtcBound(o) && !LtcBound(o)
    ensures !PaidAnswer(o, fundedTxoSum, dashboard)
  {
  }

  /**
   * Quoting an existing order and writing the quote leaves it pending with
   * a binding that the next check reads back: the amount the explorer is
   * compared against is exactly the quoted amount.
   */
  lemma QuoteIsWhatCheckReads(o: Order, q: PaymentQuote, fundedTxoSum: Option<int>)
    requires q.coin == Bitcoin && q.address != "" && q.cryptoAmount != 0.0
    ensures var o' := Apply(o, BindingPatch(q));
      o'.status == Pending && BtcBound(o')
      && (OnDemandPaid(o', fundedTxoSum, None) <==> BtcCumulativePaid(fundedTxoSum, q.cryptoAmount))
  {
  }

  /**
   * Idempotence: checking an order twice in a row, the second check answers
   * paid whenever the first one confirmed it, consults no explorer reply and
   * writes nothing.
   */
  method CheckTwice(store: OrderStore, id: string, fundedTxoSum: Option<int>, dashboard: Option<map<string, int>>,
                    later: Option<int>, laterDashboard: Option<map<string, int>>, now: nat, later_now: nat)
    returns (first: Result<bool, PaymentError>, second: Result<bool, PaymentError>)
    requires store.Valid() && id != "" && id in store.orders
    modifies store
    ensures first.Success? && id in store.orders
    ensures first == Success(true) && old(store.orders)[id].status == Pending ==>
              store.orders[id].status == Confirmed && second == Success(true)
    ensures old(store.orders)[id].status == Confirmed ==>
              first == second == Success(true) && store.orders == old(store.orders)
  {
    first := CheckPayment(store, Some(id), fundedTxoSum, dashboard, true, true, now);
    ghost var between := store.orders;
    second := CheckPayment(store, Some(id), later, laterDashboard, true, true, later_now);
    assert first == Success(true) && old(store.orders)[id].status == Pending ==> store.orders == between;
  }

  /**
   * 100 EUR at 50000 EUR/BTC is quoted as 0.002 BTC; a funded total of
   * 200000 satoshis settles it, 199000 does not.
   */
  lemma QuoteAndSettleScenario(wallet: string)
    requires wallet != ""
    ensures QuotePayment(100.0, Absent, Config(Some(wallet), None), PriceReplies(Some(50000.0), None, None))
            == Success(PaymentQuote(Bitcoin, wallet, 0.002, 100.0))
    ensures BtcCumulativePaid(Some(200000), 0.002)
    ensures !BtcCumulativePaid(Some(199000), 0.002)
  {
  }
}
