/**
 * The persisted `orders` rows as far as the payment functions read and write
 * them, and the store through which both functions update them.
 */
module Orders {
  import opened Wrappers

  datatype Coin = Bitcoin | Litecoin

  /** `payment_status`: pending until an explorer check confirms payment. */
  datatype Status = Pending | Confirmed

  /**
   * One `orders` row: the status, the nullable bitcoin and litecoin binding
   * columns and `payment_confirmed_at` (an opaque clock reading).
   */
  datatype Order = Order(
    status: Status,
    btcAddress: Option<string>,
    btcAmount: Option<real>,
    ltcAddress: Option<string>,
    ltcAmount: Option<real>,
    confirmedAt: Option<nat>)

  /** A confirmed order carries its confirmation time. */
  predicate WellFormed(o: Order) {
    o.status == Confirmed ==> o.confirmedAt.Some?
  }

  /** A nullable text column read as a JavaScript condition: null and "" are false. */
  predicate TruthyText(s: Option<string>) {
    s.Some? && s.value != ""
  }

  /** A nullable number column read as a JavaScript condition: null and 0 are false. */
  predicate TruthyAmount(x: Option<real>) {
    x.Some? && x.value != 0.0
  }

  /** `order.bitcoin_address && order.bitcoin_amount` */
  predicate BtcBound(o: Order)
    ensures BtcBound(o) ==> o.btcAddress.Some? && o.btcAmount.Some? && o.btcAmount.value != 0.0
  {
    TruthyText(o.btcAddress) && TruthyAmount(o.btcAmount)
  }

  /** `order.litecoin_address && order.litecoin_amount` */
  predicate LtcBound(o: Order)
    ensures LtcBound(o) ==> o.ltcAddress.Some? && o.ltcAmount.Some? && o.ltcAmount.value != 0.0
  {
    TruthyText(o.ltcAddress) && TruthyAmount(o.ltcAmount)
  }

  /** The column sets written by the two payment functions. */
  datatype Patch =
    | BindBitcoin(address: string, amount: real)
    | BindLitecoin(address: string, amount: real)
    | MarkConfirmed(at: nat)

  /** The row after a patch has been written to it. */
  function Apply(o: Order, p: Patch): (o': Order)
    ensures p.BindBitcoin? ==>
              (o'.status == Pending && o'.btcAddress == Some(p.address) && o'.btcAmount == Some(p.amount)
               && o'.ltcAddress == o.ltcAddress && o'.ltcAmount == o.ltcAmount && o'.confirmedAt == o.confirmedAt)
    ensures p.BindLitecoin? ==>
              (o'.status == Pending && o'.ltcAddress == Some(p.address) && o'.ltcAmount == Some(p.amount)
               && o'.btcAddress == o.btcAddress && o'.btcAmount == o.btcAmount && o'.confirmedAt == o.confirmedAt)
    ensures p.MarkConfirmed? ==>
              (o'.status == Confirmed && o'.confirmedAt == Some(p.at)
               && o'.btcAddress == o.btcAddress && o'.btcAmount == o.btcAmount
               && o'.ltcAddress == o.ltcAddress && o'.ltcAmount == o.ltcAmount)
    ensures WellFormed(o) ==> WellFormed(o')
  {
    match p
    case BindBitcoin(a, x) => o.(status := Pending, btcAddress := Some(a), btcAmount := Some(x))
    case BindLitecoin(a, x) => o.(status := Pending, ltcAddress := Some(a), ltcAmount := Some(x))
    case MarkConfirmed(t) => o.(status := Confirmed, confirmedAt := Some(t))
  }

  /**
   * Writing a binding to an already confirmed order puts it back to pending
   * and keeps its old confirmation time: quoting does not respect the
   * one-way pending-to-confirmed transition.
   */
  lemma RebindingReopensConfirmed(o: Order, p: Patch)
    requires o.status == Confirmed && WellFormed(o)
    requires p.BindBitcoin? || p.BindLitecoin?
    ensures Apply(o, p).status == Pending && Apply(o, p).confirmedAt == o.confirmedAt
    ensures Apply(o, p).confirmedAt.Some?
  {
  }

  /** The `orders` table, keyed by order id. */
  class OrderStore {
    var orders: map<string, Order>

    ghost predicate Valid()
      reads this
    {
      forall id :: id in orders ==> WellFormed(orders[id])
    }

    constructor (initial: map<string, Order>)
      requires forall id :: id in initial ==> WellFormed(initial[id])
      ensures Valid() && orders == initial
    {
      orders := initial;
    }

    /** `select('*').eq('id', id).single()` */
    function Get(id: string): (r: Option<Order>)
      reads this
      ensures r.Some? <==> id in orders
      ensures r.Some? ==> r.value == orders[id]
    {
      if id in orders then Some(orders[id]) else None
    }

    /**
     * `update(patch).eq('id', id)`. The environment decides whether the
     * database reports an error (`ok` false); a failed write changes
     * nothing, and a write that matches no row changes nothing either.
     */
    method Update(id: string, patch: Patch, ok: bool) returns (failed: bool)
      requires Valid()
      modifies this
      ensures Valid()
      ensures failed == !ok
      ensures orders == if ok && id in old(orders) then old(orders)[id := Apply(old(orders)[id], patch)]
                        else old(orders)
    {
      failed := !ok;
      if ok && id in orders {
        orders := orders[id := Apply(orders[id], patch)];
      }
    }
  }
}
