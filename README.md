# Crypto payment confirmation of the amethyst storefront, in Dafny

This project models the part of the storefront that takes payment in
Bitcoin or Litecoin, plus the storefront's product search filter.

- **bitcoin-payment function.** `create-payment` fetches a EUR price
  through a fallback chain. It divides the order's EUR amount by that price
  and binds the order to the configured wallet address and the coin amount.
  `check-payment` asks a block explorer whether the address's cumulative
  received total reaches the amount, rounded down to minor units. If so, it
  marks the order confirmed.
- **bitcoin-monitor function.** One sweep selects the pending orders that
  have an address. For each bound one it asks an explorer and confirms it when
  paid, counting only the writes that succeed. Its Bitcoin check looks for
  a single confirmed output to the address within 0.00001 BTC of the
  amount. Its Litecoin check applies the same two-sided window to the
  cumulative total.
- **Product search.** A blank query (after trimming) returns the list
  unchanged. Any other query keeps the products whose lower-cased name
  contains the lower-cased query.

Modules, one per component:

- `Wrappers`: `Option`, `Result`.
- `Amounts`: conversion to minor units and the tolerance window.
- `Orders`: the order row, the column patches the functions write, and the
  `OrderStore` class. The class is the `orders` table, a `map` field that
  the update method reassigns.
- `Pricing` and `CumulativeChecks`: the pure decisions of the
  bitcoin-payment function.
- `PaymentFunction`: its two actions. They are methods that change the store.
- `MonitorChecks`: the sweep's two checkers. The Bitcoin one is a method
  with the source's nested loops and early return.
- `Monitor`: the selection query, the per-order loop and the handler.
- `ProductSearch`: the filter, as functions.

The environment is passed in as parameters:
- each explorer and price source's reply is a parameter, with `None` for a
  failed request, a non-ok status or an unparsable body;
- each database write takes an `ok` flag for the error the database may
  report;
- the clock is a `now: nat` parameter;
- the wallet settings are a `Config` value, or an `Option<string>` in the
  sweep.

JavaScript truthiness is written out. An empty address, a zero amount and
an empty wallet setting all count as absent. So does a zero CoinGecko price.

Behaviour of the code worth knowing:

- `create-payment` does not reject a non-positive EUR amount.
- `create-payment` writes `payment_status = 'pending'` even over a
  confirmed order. That moves a confirmed order back to pending and keeps
  its old confirmation time (`Orders.RebindingReopensConfirmed`).
- The confirming update is unconditional; there is no compare-and-set.
  When that write fails, `check-payment` still answers `paid = true`.
- An order can hold a bitcoin and a litecoin binding at once. The bitcoin
  one then decides (`PaymentFunction.BitcoinBindingTakesPrecedence`).
- Explorer failures never raise; both checkers answer "not paid".
- The sweep's checkers are not "received ≥ expected". They accept only
  amounts within 0.00001 coin either side of the expected amount. As a
  result, a Litecoin address whose cumulative total has run past the amount
  is never confirmed by the sweep, though `check-payment` would confirm it
  (`MonitorChecks.LtcCheckersDisagreeOnOverpaidTotal`).
- Only the blank test trims the search query. The filter uses the
  untrimmed query (`ProductSearch.UntrimmedQueryMisses`).

## Model

| member | source | states |
|---|---|---|
| Amounts.MinorUnits | supabase/functions/bitcoin-payment/index.ts:85 | `floor(x * 1e8)` is the largest whole number of minor units not above the amount |
| Amounts.AtLeastMinorUnits | supabase/functions/bitcoin-payment/index.ts:85-89 | a total reaches the rounded-down expected amount iff it exceeds the exact expected minor units minus one |
| Amounts.MinorUnitsMonotone | supabase/functions/bitcoin-payment/index.ts:85 | rounding down to minor units preserves order |
| Amounts.WithinTolerance | supabase/functions/bitcoin-monitor/index.ts:150-153 | `abs(v/1e8 - e) < 0.00001` holds iff `v` is fewer than 1000 minor units from `e * 1e8`, on either side |
| Pricing.BtcSource | supabase/functions/bitcoin-payment/index.ts:31-57 | CoinGecko answers iff its `eur` is present and non-zero; CoinDesk iff CoinGecko does not and CoinDesk does; otherwise the static price |
| Pricing.BtcPrice | supabase/functions/bitcoin-payment/index.ts:31-57 | the BTC price is the answering source's quote, or exactly 90000; it is total (never raises) and never zero |
| Pricing.LtcPrice | supabase/functions/bitcoin-payment/index.ts:60-75 | the LTC price is CoinGecko's truthy `eur`, else exactly 120; total and never zero |
| Pricing.BtcPriceIgnoresFallbackWhenPrimaryAnswers | supabase/functions/bitcoin-payment/index.ts:32-39 | while CoinGecko answers, CoinDesk's reply has no influence on the price |
| Pricing.BtcPriceIsOffered | supabase/functions/bitcoin-payment/index.ts:31-57 | the price is always a quote some source offered or the static default |
| Pricing.PricesPositive | supabase/functions/bitcoin-payment/index.ts:31-75 | with sources that never quote a negative price, both prices are positive |
| CumulativeChecks.BtcCumulativePaid | supabase/functions/bitcoin-payment/index.ts:78-94 | paid iff the fetch succeeded and `funded_txo_sum` exceeds `expected * 1e8 - 1` (the same as reaching `floor(expected * 1e8)`); any failure is unpaid |
| CumulativeChecks.LtcCumulativePaid | supabase/functions/bitcoin-payment/index.ts:97-117 | paid iff the fetch succeeded, the address has an entry, and its `received` exceeds `expected * 1e8 - 1` |
| CumulativeChecks.FullPaymentAccepted | supabase/functions/bitcoin-payment/index.ts:83-89 | a total of at least the expected amount is accepted by both cumulative checks |
| CumulativeChecks.CumulativeThreshold | supabase/functions/bitcoin-payment/index.ts:85-89 | exactly `floor(expected * 1e8)` is paid, one unit less is not, and a larger total stays paid |
| Orders.Apply | supabase/functions/bitcoin-payment/index.ts:159-198 | a binding patch writes only the coin's address and amount and sets pending; the confirm patch sets confirmed and the time; no other column changes, and a well-formed row stays well-formed |
| Orders.BtcBound | supabase/functions/bitcoin-payment/index.ts:248 | `bitcoin_address && bitcoin_amount`: a bound order has an address and a non-zero amount (an empty address or a zero amount is unbound) |
| Orders.LtcBound | supabase/functions/bitcoin-payment/index.ts:250 | `litecoin_address && litecoin_amount`: a bound order has an address and a non-zero amount |
| Orders.RebindingReopensConfirmed | supabase/functions/bitcoin-payment/index.ts:161-165 | binding a confirmed order makes it pending again and keeps its old confirmation time |
| Orders.OrderStore.Get | supabase/functions/bitcoin-payment/index.ts:229-237 | the lookup finds a row iff the id is in the table, and returns that row |
| Orders.OrderStore.Update | supabase/functions/bitcoin-payment/index.ts:256-268 | a write either fails and changes nothing, or patches exactly the row with that id (none if there is no such row) |
| PaymentFunction.PaymentAddress | supabase/functions/bitcoin-payment/index.ts:120-132 | succeeds iff the coin's wallet setting is set and non-empty, returning exactly that address; otherwise a configuration error for that coin |
| PaymentFunction.RequestedCoin | supabase/functions/bitcoin-payment/index.ts:144-217 | an absent currency means bitcoin; a JSON `null` is not defaulted and is unsupported; only "bitcoin" and "litecoin" are supported |
| PaymentFunction.CoinPrice | supabase/functions/bitcoin-payment/index.ts:153-186 | the price fetched for the requested coin is never zero, and falls back to that coin's static price when its sources fail |
| PaymentFunction.QuotePayment | supabase/functions/bitcoin-payment/index.ts:143-217 | unsupported currency iff the coin is unknown; otherwise success iff the wallet is configured; on success the amount times the price is the EUR amount and the address is the configured one |
| PaymentFunction.BindingPatch | supabase/functions/bitcoin-payment/index.ts:161-197 | the quote's update sets pending and writes the address and amount to the quoted coin's columns only, leaving the other coin's binding as it was |
| PaymentFunction.CreatePayment | supabase/functions/bitcoin-payment/index.ts:143-217 | a failed quote writes nothing; otherwise the order gets exactly the quoted binding and status pending, or a failed write is an error and changes nothing; the store invariant is kept |
| PaymentFunction.OnDemandPaid | supabase/functions/bitcoin-payment/index.ts:246-252 | a bitcoin binding is decided by the Blockstream check, otherwise a litecoin binding by the Blockchair check; paid implies bound |
| PaymentFunction.MissingId | supabase/functions/bitcoin-payment/index.ts:222 | `!orderId`: the id is missing exactly when it is absent or empty |
| PaymentFunction.CheckPayment | supabase/functions/bitcoin-payment/index.ts:219-273 | missing id is an error; a failed order read and an unknown order are both 'Order not found' and change nothing; a confirmed order answers paid and nothing changes; otherwise the answer is the explorer verdict, and only a paid verdict with a successful write confirms the order at `now` |
| PaymentFunction.BitcoinBindingTakesPrecedence | supabase/functions/bitcoin-payment/index.ts:248-252 | with both bindings present, the litecoin reply has no influence on the verdict |
| PaymentFunction.UnboundNeverPaid | supabase/functions/bitcoin-payment/index.ts:246-252 | a pending order without a truthy binding is never reported paid |
| PaymentFunction.QuoteIsWhatCheckReads | supabase/functions/bitcoin-payment/index.ts:158-166 | after a bitcoin quote is written, the order is pending and the next check compares the explorer total against exactly the quoted amount |
| PaymentFunction.CheckTwice | supabase/functions/bitcoin-payment/index.ts:239-243 | a second check after a confirming one answers paid; on an already confirmed order both checks answer paid and write nothing |
| PaymentFunction.QuoteAndSettleScenario | supabase/functions/bitcoin-payment/index.ts:152-154 | 100 EUR at 50000 EUR/BTC is 0.002 BTC; a funded total of 200000 satoshis settles it, 199000 does not |
| MonitorChecks.CheckBitcoinOutputs | supabase/functions/bitcoin-monitor/index.ts:127-166 | paid iff the fetch succeeded and some confirmed transaction has an output to the bound address within 0.00001 BTC of the amount |
| MonitorChecks.LtcWithinTolerance | supabase/functions/bitcoin-monitor/index.ts:168-197 | paid iff the fetch succeeded, the address has an entry, and its cumulative `received` is fewer than 1000 litoshis from the expected amount |
| MonitorChecks.ConfirmedOnlyMembers | supabase/functions/bitcoin-monitor/index.ts:141-144 | dropping unconfirmed transactions keeps exactly the confirmed ones |
| MonitorChecks.UnconfirmedIgnored | supabase/functions/bitcoin-monitor/index.ts:141-144 | removing every unconfirmed transaction never changes the verdict |
| MonitorChecks.OtherAddressesIgnored | supabase/functions/bitcoin-monitor/index.ts:147-148 | outputs to other addresses never settle an order |
| MonitorChecks.OverpaymentRejected | supabase/functions/bitcoin-monitor/index.ts:152-153 | any output 1000 satoshis or more above the expected amount never matches |
| MonitorChecks.LtcCheckersDisagreeOnOverpaidTotal | supabase/functions/bitcoin-monitor/index.ts:180-189 | a cumulative total 1000 litoshis or more past the amount is paid for `check-payment` but never for the sweep |
| MonitorChecks.SettleScenario | supabase/functions/bitcoin-monitor/index.ts:140-161 | for 0.002 BTC, a confirmed 200000-satoshi output settles; 199000, unconfirmed, or to another address does not |
| Monitor.Selected | supabase/functions/bitcoin-monitor/index.ts:44-45 | only pending orders are selected; a bound order is selected exactly when it is pending |
| Monitor.SelectPending | supabase/functions/bitcoin-monitor/index.ts:40-50 | the selection lists each pending order with a non-null bitcoin or litecoin address exactly once, and nothing else |
| Monitor.CheckOrder | supabase/functions/bitcoin-monitor/index.ts:66-77 | an order is checked iff it has a truthy bitcoin or litecoin binding, bitcoin first, and the verdict is that checker's |
| Monitor.SweepVerdict | supabase/functions/bitcoin-monitor/index.ts:66-77 | `isPaymentConfirmed` is true only for a bound order, and only when the explorer consulted for its binding replied |
| Monitor.SweepOrders | supabase/functions/bitcoin-monitor/index.ts:61-104 | every selected order is visited; the count is the number of orders found paid whose write succeeded, and exactly those are confirmed |
| Monitor.Sweep | supabase/functions/bitcoin-monitor/index.ts:26-113 | fails with no change when the wallet is unset or the query fails; reports nothing to check iff nothing is selected; otherwise `totalChecked` is the number selected, `confirmedCount` the number confirmed, and `confirmedCount <= totalChecked` |
| Monitor.SweptOnlyConfirms | supabase/functions/bitcoin-monitor/index.ts:79-96 | a sweep keeps every order, leaves unselected and confirmed orders as they were, and an order ends confirmed iff it was or the sweep confirmed it |
| Monitor.CountConfirmedIsSize | supabase/functions/bitcoin-monitor/index.ts:94 | over distinct ids, the loop's counter equals the number of distinct confirmed ids, and is at most the number of ids |
| Monitor.DistinctSize | supabase/functions/bitcoin-monitor/index.ts:110 | `pendingOrders.length` is the number of distinct selected orders |
| ProductSearch.Trim | src/components/ProductSearch.tsx:18 | the trimmed query is a piece of the query, no longer than it, that neither starts nor ends with white space |
| ProductSearch.TrimEmptyIffBlank | src/components/ProductSearch.tsx:18 | a query trims to empty iff every character is white space |
| ProductSearch.ToLower | src/components/ProductSearch.tsx:23 | lower-casing keeps the length and maps each character on its own |
| ProductSearch.Includes | src/components/ProductSearch.tsx:23 | `includes` holds iff the query occurs at some position of the name |
| ProductSearch.NameMatches | src/components/ProductSearch.tsx:23 | the `filter` test: the empty query matches every product, and a query longer than the name never matches |
| ProductSearch.FilterByName | src/components/ProductSearch.tsx:22-24 | a product is in the result iff it is in the input and its lower-cased name contains the lower-cased query; each matching product keeps exactly its number of copies, others have none; the result is a subsequence of the input |
| ProductSearch.Search | src/components/ProductSearch.tsx:17-25 | a blank query returns the input exactly; otherwise exactly the matching products are kept, each with its number of copies in the input; the result is always a subsequence of the input |
| ProductSearch.SubsequenceBounds | src/components/ProductSearch.tsx:22-24 | a subsequence is no longer than its source and repeats no element more often |
| ProductSearch.SearchBounds | src/components/ProductSearch.tsx:22-24 | the search result is no longer than the input and its multiset of products is contained in the input's |
| ProductSearch.SearchIdempotent | src/components/ProductSearch.tsx:17-25 | searching the result again with the same query gives the same result |
| ProductSearch.UntrimmedQueryMisses | src/components/ProductSearch.tsx:18-23 | the query " amethyst" does not find the product "Amethyst", since the filter uses the untrimmed query |

## Left out

- HTTP transport is not modelled: serving, CORS and the OPTIONS reply, `req.json()`, the response bodies and the 500 status. An error value of the model stands in for each thrown message.
- The `action` dispatch and its "Invalid action" error are left out, as request plumbing.
- The Supabase client, `fetch` and `Deno.env` become parameters, and so do the explorer and price sources. `console.log` is left out.
- Floating point: amounts are reals, so IEEE rounding, NaN and infinities are not modelled.
- `toFixed(8)` and the `qr_url` / payment URI strings are left out, as number-to-text formatting.
- Pricing.BtcPrice: the CoinDesk reply is a positive rate. `parseFloat` turning a malformed rate into NaN, or a zero rate making the division non-finite, is not modelled.
- JavaScript coercions: amounts, `received` and `funded_txo_sum` are modelled as numbers only; a numeric string, which the source coerces to its number, is not represented separately.
- A missing `received` or `funded_txo_sum` field, which compares false in the source, is modelled as a failed reply.
- Monitor.SweepOrders: every confirmation of one sweep carries the same `now`, where the source reads the clock once per order.
- The per-order `try/catch` of the sweep is not modelled separately. In the model nothing inside it can fail except the explorer fetches (read as unpaid) and the write (not counted).
- Concurrency: calls are treated as sequential. The confirming update is unconditional in the source, so there is no compare-and-set to model.
- ProductSearch.ToLower: only ASCII and Latin-1 capitals are lower-cased.
- Other Unicode case mappings of `toLowerCase` (including multi-character ones) are not modelled.
- The other files are not part of this model, being UI, CRUD or authentication code: the checkout dialog, the admin panel and its login, the header, hero, product card and grid components, the index page, the auth context and the admin-auth function.
