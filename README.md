# TradeSim trade settlement, modelled in Dafny

TradeSim is a virtual stock-trading simulator. Its one piece of real
business logic is the trade-settlement handler `POST /trades/place`. The
handler takes a user's order (symbol, BUY or SELL, quantity, price) and
checks it against the user's cash balance or position. It then updates the
balance and the user's holding for that symbol, and appends one trade record
to the ledger. The companion read `GET /trades/history` returns the user's
trades newest first.

The model has these parts:

- `records.dfy` (module `Records`): the holding and trade records and the two-valued trade side.
- `settlement.dfy` (module `Settlement`): the handler (server/routes/trades.js:9-80) as a function `Settle` on a `Book` value.
  A `Book` holds the balance per user, the holding per (user, symbol) and the ledger.
  The module also defines the store invariants `WellFormed` and `Reconciled`.
  `Reconciled` says balances and holdings agree with what the ledger records.
- `settlement_properties.dfy` (module `SettlementProperties`): what one call promises and what a sequence of calls keeps.
- `history.dfy` (module `History`): the history query, a newest-first ordering of one user's trades.
- `store.dfy` (module `Store`): the class `TradeStore`.
  Its fields are the three stores, which `Place` updates step by step as the handler does.
  `Place` is proved equal to `Settle` and to preserve both invariants.
- `as_written.dfy` (module `AsWritten`): the BUY balance rule on an unchecked integer quantity (see Findings).

Money is Dafny's exact `real`, in place of JavaScript's floating-point
numbers. Quantities are integers, because the client sends `parseInt` of the
quantity field; the model further takes them as positive (`nat` with
`quantity > 0`), which nothing on the server enforces (see Left out). The
clock that stamps a trade is the parameter `now`.

Two things the handler does not do:

- The handler never checks that quantity and price are positive.
  The model therefore requires `quantity > 0 && price > 0` of callers (see Findings and Left out).
- The handler raises no write-conflict or store-unavailable error of its own; a failing save ends in its generic server error, which the model leaves out.

When the user record is missing, reading its balance throws and the handler answers with a server error.
The model's outcome for this is `UserNotFound`, which changes nothing.
A BUY reads the balance first. A SELL checks the holding first, so a SELL without enough shares answers `InsufficientHoldings` even for a missing user.

## Model

| member | source | states |
|---|---|---|
| `Store.TradeStore.Place` | server/routes/trades.js:9-80 | the stores after one order are exactly `Settle` of the stores before, and the answer is `Settle`'s; well-formedness and reconciliation with any opening balances are preserved |
| `Store.TradeStore.constructor` | server/routes/trades.js:15 | the account store that line reads, with opening balances, no holdings and no trades; the stores start reconciled (the opening balances come from registration, which is not part of this model) |
| `Store.TradeStore.TradeHistory` | server/routes/trades.js:83-92 | the answer holds exactly the caller's trades, each as often as in the ledger, newest first |
| `SettlementProperties.WeightedAverageBounds` | server/routes/trades.js:29-34 | the re-averaged cost times the new quantity is the old total cost plus the amount paid, and the average lies between the old average and the price |
| `SettlementProperties.BuyAcceptance` | server/routes/trades.js:13-24 | a BUY is accepted iff the user exists and balance >= quantity * price; otherwise `InsufficientBalance` (or `UserNotFound`); on acceptance the balance drops by exactly the total and no other balance moves |
| `SettlementProperties.BuyUpdatesHolding` | server/routes/trades.js:26-44 | an accepted BUY adds exactly the bought shares; a new holding is (quantity, price); an existing one gets the weighted average, which lies between the old average and the price |
| `SettlementProperties.SellAcceptance` | server/routes/trades.js:45-53 | a SELL is accepted iff the user exists and holds at least the quantity; a missing or short holding gives `InsufficientHoldings`; enough shares but no user record gives `UserNotFound`; on acceptance the balance rises by exactly the total |
| `SettlementProperties.SellUpdatesHolding` | server/routes/trades.js:55-61 | an accepted SELL removes exactly the sold shares; the holding is deleted iff none remain; otherwise its average price is unchanged |
| `SettlementProperties.RejectionChangesNothing` | server/routes/trades.js:17-49 | a rejected order leaves balances, holdings and ledger as they were |
| `SettlementProperties.RejectionIsRepeatable` | server/routes/trades.js:17-49 | resubmitting a rejected order gives the same answer and still changes nothing |
| `SettlementProperties.AcceptedAppendsOneTrade` | server/routes/trades.js:64-75 | an accepted order appends exactly one trade echoing the order with totalAmount = quantity * price, keeps all earlier entries, and reports the stored balance |
| `SettlementProperties.OnlyCallerAffected` | server/routes/trades.js:12-61 | no other user's balance and no other (user, symbol) holding changes; the set of accounts is unchanged |
| `SettlementProperties.SettlePreservesWellFormed` | server/routes/trades.js:17-73 | balances stay non-negative, every stored holding has quantity > 0 and a positive average price, and every ledger total equals quantity * price |
| `SettlementProperties.HoldingsStayPositive` | server/routes/trades.js:26-61 | no settlement leaves an empty holding or one with a non-positive average price |
| `SettlementProperties.AppendOne` | server/routes/trades.js:64-73 | appending a trade adds its signed total to its owner's cash flow and its signed quantity to that owner's net position in its symbol, and nothing elsewhere |
| `SettlementProperties.OpeningIsReconciled` | server/routes/trades.js:15 | opening balances with no holdings and no trades agree with the empty ledger (the opening state comes from registration, which is not part of this model) |
| `SettlementProperties.SettlePreservesReconciled` | server/routes/trades.js:9-80 | after any order, every balance is its opening balance plus the cash its trades moved, and every holding holds exactly the net shares its trades acquired |
| `SettlementProperties.BuyKeepsCashPlusCost` | server/routes/trades.js:23-34 | a BUY moves cash into cost basis: balance plus the holding's quantity * averagePrice is unchanged |
| `SettlementProperties.SellRealisesProfit` | server/routes/trades.js:52-56 | a SELL changes balance plus cost basis by exactly quantity * (price - averagePrice) |
| `SettlementProperties.UnitBuysAllSettle` | server/routes/trades.js:17-44 | n unit BUYs at price p, settled one after another from a balance of at least n * p, all succeed; the balance drops by exactly n * p, the holding grows by exactly n and the ledger by n trades |
| `SettlementProperties.UnitBuysSpendRepeatedPrice` | server/routes/trades.js:17-44 | the same induction with the spend written as p added up n times |
| `SettlementProperties.WalkThrough` | server/routes/trades.js:9-80 | from 10000: BUY 10@100 gives 9000 and (10, 100); BUY 10@120 gives 7800 and (20, 110); SELL 5@130 gives 8450 and (15, 110); SELL 15@50 gives 9200 and no holding |
| `History.InsertByTime` | server/routes/trades.js:85-87 | inserting a trade into a newest-first sequence keeps it newest first and adds exactly that trade |
| `History.TradeHistory` | server/routes/trades.js:85-88 | the history holds exactly the user's trades, each as often as in the ledger, ordered by timestamp descending |
| `History.AppendedTradeComesFirst` | server/routes/trades.js:64-88 | a trade stamped strictly later than every ledger entry heads its owner's history; other users' histories are unchanged |
| `History.SettledTradeHeadsHistory` | server/routes/trades.js:64-88 | when the clock has moved past every recorded trade, an accepted order's trade is the first entry of the caller's history; a rejected order leaves it unchanged |
| `AsWritten.BuyBalance` | server/routes/trades.js:13-23 | with an unchecked integer quantity: an accepted positive order leaves a balance in [0, old balance); from any non-negative balance, an order with a negative quantity and a positive price is always accepted and raises the balance |
| `AsWritten.BuyBalanceAgreesWithSettle` | server/routes/trades.js:13-23 | for positive orders of an existing user, the as-written rule accepts exactly when `Settle`'s BUY does and yields the same new balance |
| `AsWritten.NegativeBuyCreditsCash` | server/routes/trades.js:13-23 | a BUY of -10 shares at 100 from a zero balance is accepted and leaves 1000 |

## Left out

- Concurrency and atomicity: the handler issues separate saves for the balance, the holding and the trade. Each call is modelled as one indivisible step, so lost updates between concurrent requests and half-applied orders after a failed save are not captured.
- Failures of the document store itself, and schema validation failures at save time (such as an empty symbol). These happen after earlier saves have committed.
- Orders whose type is neither BUY nor SELL. Such an order skips both branches and then fails the trade schema's enum check. `Side` has only two constructors, so the case cannot arise.
- Fractional quantities: the client sends integer quantities; the model's quantity is `nat`.
- Floating-point rounding of JavaScript numbers: money is exact `real`.
- Settlement.Settle: requires quantity > 0 and price > 0; the route accepts any numbers the request body carries (the form's `min="1"` is only a client hint), so orders with a zero or negative quantity or price are not modelled here. `AsWritten.BuyBalance` covers the BUY balance rule for them.
- Store.TradeStore.Place: carries the same requirement as `Settlement.Settle`, for the same reason.
- Request field types: the JSON body is used without any type check, and the model takes quantity and price to be numbers. A string quantity is not modelled. For example, a BUY with `"quantity": "10"` still gets a numeric total at server/routes/trades.js:13, but at line 29 `holding.quantity + quantity` concatenates: an existing holding of 5 becomes "510", which is stored as 510 shares paid for as 10. A `null` quantity (what an emptied form field sends, since `parseInt("")` is NaN) is not modelled either.
- Store.TradeStore.TradeHistory: equal timestamps may come back from the database in any order; the model returns one such order, and no lemma relies on that choice (the history lemmas require the newest trade to be strictly later).
- Express routing, authentication, user registration (which sets the opening balance), the random-walk price feed and the React client: input/output and rendering, not settlement logic.

## Findings

| source | as written | input that shows it | evidently intended | confidence | as-written member | corrected member |
|---|---|---|---|---|---|---|
| server/routes/trades.js:11-23 | quantity and price come from the request body unchecked; a BUY with a negative total passes the `balance < totalAmount` test and `balance -= totalAmount` credits cash | BUY quantity -10 at price 100 from balance 0: accepted, balance becomes 1000 | reject non-positive quantity or price before any change, so a BUY never raises the balance and no holding goes non-positive | high; not executed | `AsWritten.NegativeBuyCreditsCash` | `SettlementProperties.SettlePreservesWellFormed` |
