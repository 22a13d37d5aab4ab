/**
 * The bitcoin-monitor edge function: one sweep over the pending orders that
 * carry an address, confirming each one the sweep's explorer checks accept.
 */
module Monitor {
  import opened Wrappers
  import opened Orders
  import opened MonitorChecks

  /**
   * What the environment answers during one sweep, per order id: the
   * Blockstream transaction list, the Blockchair dashboard, and whether the
   * confirming write succeeds. Each order is fetched and written at most once.
   */
  datatype SweepReplies = SweepReplies(
    btcTxs: string -> Option<seq<Tx>>,
    ltcDashboard: string -> Option<map<string, int>>,
    writeOk: string -> bool)

  datatype SweepError = WalletNotConfigured | OrdersQueryFailed

  /** The sweep's response: nothing selected, or the two counters. */
  datatype SweepOutcome = NothingToCheck | Completed(confirmedCount: nat, totalChecked: nat)

  /**
   * The row filter of the pending-orders query: status pending and a
   * non-null bitcoin or litecoin address (an empty address is not null).
   */
  predicate Selected(o: Order)
    ensures Selected(o) ==> o.status == Pending
    ensures BtcBound(o) || LtcBound(o) ==> (Selected(o) <==> o.status == Pending)
  {
    o.status == Pending && (o.btcAddress.Some? || o.ltcAddress.Some?)
  }

  function SelectedIds(orders: map<string, Order>): (ids: set<string>) {
    set id | id in orders && Selected(orders[id])
  }

  predicate Distinct(ids: seq<string>) {
    forall i, j :: 0 <= i < j < |ids| ==> ids[i] != ids[j]
  }

  /** `isPaymentConfirmed` for one order: bitcoin binding first, then litecoin, else skipped. */
  predicate SweepVerdict(id: string, o: Order, rs: SweepReplies)
    ensures SweepVerdict(id, o, rs) ==> BtcBound(o) || LtcBound(o)
    ensures BtcBound(o) ==> (SweepVerdict(id, o, rs) ==> rs.btcTxs(id).Some?)
    ensures !BtcBound(o) && LtcBound(o) ==> (SweepVerdict(id, o, rs) ==> rs.ltcDashboard(id).Some?)
  {
    if BtcBound(o) then
      rs.btcTxs(id).Some? && HasMatchingOutput(rs.btcTxs(id).value, o.btcAddress.value, o.btcAmount.value)
    else if LtcBound(o) then
      LtcWithinTolerance(rs.ltcDashboard(id), o.ltcAddress.value, o.ltcAmount.value)
    else false
  }

  /** The sweep checks the order, finds it paid, and the confirming write succeeds. */
  predicate Confirms(id: string, o: Order, rs: SweepReplies) {
    SweepVerdict(id, o, rs) && rs.writeOk(id)
  }

  function ConfirmedIds(orders: map<string, Order>, rs: SweepReplies): (ids: set<string>) {
    set id | id in orders && Selected(orders[id]) && Confirms(id, orders[id], rs)
  }

  /** The orders table after a sweep that confirms at time `now`. */
  function Swept(orders: map<string, Order>, rs: SweepReplies, now: nat): (after: map<string, Order>) {
    map id | id in orders ::
      if Selected(orders[id]) && Confirms(id, orders[id], rs) then Apply(orders[id], MarkConfirmed(now))
      else orders[id]
  }

  /**
   * A sweep only ever confirms: it keeps every order, leaves confirmed and
   * unselected orders exactly as they were, and an order is confirmed
   * afterwards exactly when it was before or the sweep confirmed it.
   */
  lemma SweptOnlyConfirms(orders: map<string, Order>, rs: SweepReplies, now: nat)
    ensures Swept(orders, rs, now).Keys == orders.Keys
    ensures forall id :: id in orders && !Selected(orders[id]) ==> Swept(orders, rs, now)[id] == orders[id]
    ensures forall id :: id in orders ==>
              (Swept(orders, rs, now)[id].status == Confirmed <==>
               orders[id].status == Confirmed || id in ConfirmedIds(orders, rs))
  {
  }

  /** The pending-orders query, in whatever order the database returns the rows. */
  method SelectPending(store: OrderStore) returns (ids: seq<string>)
    ensures Distinct(ids)
    ensures forall i :: 0 <= i < |ids| ==> ids[i] in store.orders && Selected(store.orders[ids[i]])
    ensures forall id :: id in store.orders && Selected(store.orders[id]) ==> id in ids
  {
    var rows := store.orders;
    var remaining := rows.Keys;
    ids := [];
    while remaining != {}
      invariant remaining <= rows.Keys
      invariant Distinct(ids)
      invariant forall i :: 0 <= i < |ids| ==> ids[i] in rows && Selected(rows[ids[i]]) && ids[i] !in remaining
      invariant forall id :: id in rows && id !in remaining && Selected(rows[id]) ==> id in ids
      decreases remaining
    {
      var id :| id in remaining;
      if Selected(rows[id]) {
        ids := ids + [id];
      }
      remaining := remaining - {id};
    }
  }

  /** How many of the listed orders the sweep confirms. */
  function CountConfirmed(orders: map<string, Order>, ids: seq<string>, rs: SweepReplies): (n: nat)
    requires forall i :: 0 <= i < |ids| ==> ids[i] in orders
  {
    if ids == [] then 0
    else
      var last := ids[|ids| - 1];
      CountConfirmed(orders, ids[..|ids| - 1], rs) + (if Confirms(last, orders[last], rs) then 1 else 0)
  }

  /** The count over a list of distinct ids is the number of distinct confirmed ids in it. */
  lemma {:induction false} CountConfirmedIsSize(orders: map<string, Order>, ids: seq<string>, rs: SweepReplies)
    requires forall i :: 0 <= i < |ids| ==> ids[i] in orders
    requires Distinct(ids)
    ensures CountConfirmed(orders, ids, rs) == |set id | id in ids && id in orders && Confirms(id, orders[id], rs)|
    ensures CountConfirmed(orders, ids, rs) <= |ids|
  {
    if ids != [] {
      var front, last := ids[..|ids| - 1], ids[|ids| - 1];
      CountConfirmedIsSize(orders, front, rs);
      var s := set id | id in ids && id in orders && Confirms(id, orders[id], rs);
      var s' := set id | id in front && id in orders && Confirms(id, orders[id], rs);
      assert ids == front + [last];
      assert last !in front;
      if Confirms(last, orders[last], rs) {
        assert s == s' + {last};
      } else {
        assert s == s';
      }
    }
  }

  /** A list of distinct ids has as many elements as it has members. */
  lemma {:induction false} DistinctSize(ids: seq<string>)
    requires Distinct(ids)
    ensures |set id | id in ids| == |ids|
  {
    if ids != [] {
      var front, last := ids[..|ids| - 1], ids[|ids| - 1];
      DistinctSize(front);
      assert ids == front + [last];
      assert last !in front;
      assert (set id | id in ids) == (set id | id in front) + {last};
    }
  }

  /** The rows after the orders of `done` have been visited. */
  function Processed(rows: map<string, Order>, done: seq<string>, rs: SweepReplies, now: nat): (after: map<string, Order>) {
    map id | id in rows ::
      if id in done && Confirms(id, rows[id], rs) then Apply(rows[id], MarkConfirmed(now)) else rows[id]
  }

  lemma ProcessedStep(rows: map<string, Order>, done: seq<string>, id: string, rs: SweepReplies, now: nat)
    requires id in rows && id !in done
    ensures Processed(rows, done, rs, now)[id] == rows[id]
    ensures Processed(rows, done + [id], rs, now) ==
              if Confirms(id, rows[id], rs) then Processed(rows, done, rs, now)[id := Apply(rows[id], MarkConfirmed(now))]
              else Processed(rows, done, rs, now)
  {
  }

  /**
   * The body of the loop for one row, up to the write: whether the row has
   * a binding to check (otherwise the loop `continue`s), and the verdict.
   */
  method CheckOrder(id: string, order: Order, rs: SweepReplies) returns (bound: bool, isPaymentConfirmed: bool)
    ensures bound <==> BtcBound(order) || LtcBound(order)
    ensures isPaymentConfirmed == SweepVerdict(id, order, rs)
  {
    bound, isPaymentConfirmed := true, false;
    if BtcBound(order) {
      isPaymentConfirmed := CheckBitcoinOutputs(rs.btcTxs(id), order.btcAddress.value, order.btcAmount.value);
    } else if LtcBound(order) {
      isPaymentConfirmed := LtcWithinTolerance(rs.ltcDashboard(id), order.ltcAddress.value, order.ltcAmount.value);
    } else {
      bound := false;
    }
  }

  /** The loop of the sweep handler over the selected rows `ids`. */
  method SweepOrders(store: OrderStore, ids: seq<string>, rs: SweepReplies, now: nat) returns (confirmedCount: nat)
    requires store.Valid() && Distinct(ids)
    requires forall i :: 0 <= i < |ids| ==> ids[i] in store.orders && Selected(store.orders[ids[i]])
    modifies store
    ensures store.Valid()
    ensures confirmedCount == CountConfirmed(old(store.orders), ids, rs)
    ensures store.orders == Processed(old(store.orders), ids, rs, now)
  {
    var rows := store.orders;
    confirmedCount := 0;
    assert store.orders == Processed(rows, ids[..0], rs, now);
    for i := 0 to |ids|
      invariant store.Valid()
      invariant confirmedCount == CountConfirmed(rows, ids[..i], rs)
      invariant store.orders == Processed(rows, ids[..i], rs, now)
    {
      var id := ids[i];
      var order := rows[id];
      assert ids[..i + 1] == ids[..i] + [id];
      assert id !in ids[..i];
      ProcessedStep(rows, ids[..i], id, rs, now);
      var bound, isPaymentConfirmed := CheckOrder(id, order, rs);
      if !bound {
        continue;
      }
      if isPaymentConfirmed {
        var failed := store.Update(id, MarkConfirmed(now), rs.writeOk(id));
        if !failed {
          confirmedCount := confirmedCount + 1;
        }
      }
    }
    assert ids[..|ids|] == ids;
  }

  /**
   * One sweep. It fails before checking anything when the bitcoin wallet
   * is not configured or the query fails; with nothing selected it reports
   * so; otherwise it visits every selected order, confirms those whose
   * check passes and whose write succeeds, and counts exactly those.
   */
  method Sweep(store: OrderStore, walletAddress: Option<string>, queryOk: bool, rs: SweepReplies, now: nat)
    returns (r: Result<SweepOutcome, SweepError>)
    requires store.Valid()
    modifies store
    ensures store.Valid()
    ensures !TruthyText(walletAddress) <==> r == Failure(WalletNotConfigured)
    ensures TruthyText(walletAddress) && !queryOk ==> r == Failure(OrdersQueryFailed)
    ensures TruthyText(walletAddress) && queryOk ==>
              r.Success? && (r.value == NothingToCheck <==> SelectedIds(old(store.orders)) == {})
    ensures r.Success? && r.value.Completed? ==>
              && r.value.totalChecked == |SelectedIds(old(store.orders))|
              && r.value.confirmedCount == |ConfirmedIds(old(store.orders), rs)|
              && r.value.confirmedCount <= r.value.totalChecked
    ensures store.orders == if r.Success? then Swept(old(store.orders), rs, now) else old(store.orders)
  {
    if walletAddress.None? || walletAddress.value == "" {
      return Failure(WalletNotConfigured);
    }
    if !queryOk {
      return Failure(OrdersQueryFailed);
    }
    var pendingOrders := SelectPending(store);
    ghost var rows := store.orders;
    assert (set id | id in pendingOrders) == SelectedIds(rows);
    if |pendingOrders| == 0 {
      assert store.orders == Swept(rows, rs, now);
      return Success(NothingToCheck);
    }
    assert pendingOrders[0] in SelectedIds(rows);
    var confirmedCount := SweepOrders(store, pendingOrders, rs, now);
    CountConfirmedIsSize(rows, pendingOrders, rs);
    DistinctSize(pendingOrders);
    assert (set id | id in pendingOrders && id in rows && Confirms(id, rows[id], rs)) == ConfirmedIds(rows, rs);
    assert store.orders == Swept(rows, rs, now);
    r := Success(Completed(confirmedCount, |pendingOrders|));
  }
}
