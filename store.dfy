/**
 * The route handlers as they run: the three stores are fields that
 * `Place` updates in place, one step after another, and `History` reads.
 */
module Store {
  import opened Records
  import opened Settlement
  import SettlementProperties
  import History

  class TradeStore {
    var balances: map<UserId, real>
    var holdings: map<(UserId, Symbol), Holding>
    var ledger: seq<Trade>

    /** The stores as one value, to compare with the settlement function. */
    function Snapshot(): Book
      reads this
    {
      Book(balances, holdings, ledger)
    }

    /** Registered accounts with their opening balances; no positions and no trades yet. */
    constructor (accounts: map<UserId, real>)
      ensures Snapshot() == Book(accounts, map[], [])
      ensures Settlement.Reconciled(Snapshot(), accounts)
    {
      balances := accounts;
      holdings := map[];
      ledger := [];
      SettlementProperties.OpeningIsReconciled(accounts);
    }

    /**
     * `POST /place` for `user` at clock reading `now`. The handler does not
     * check that quantity and price are positive; callers must.
     */
    method Place(user: UserId, symbol: Symbol, side: Side, quantity: nat, price: real, now: int)
      returns (outcome: Outcome)
      requires quantity > 0 && price > 0.0
      modifies this
      ensures Step(Snapshot(), outcome) == Settle(old(Snapshot()), user, Order(symbol, side, quantity, price), now)
      ensures old(WellFormed(Snapshot())) ==> WellFormed(Snapshot())
      ensures forall opening :: old(Reconciled(Snapshot(), opening)) ==> Reconciled(Snapshot(), opening)
    {
      ghost var before := Snapshot();
      ghost var order := Order(symbol, side, quantity, price);
      var totalAmount := quantity as real * price;
      var key := (user, symbol);
      assert totalAmount == TotalAmount(order);
      match side {
        case Buy =>
          if user !in balances {
            return UserNotFound;
          }
          if balances[user] < totalAmount {
            return InsufficientBalance;
          }
          balances := balances[user := balances[user] - totalAmount];
          if key in holdings {
            var holding := holdings[key];
            var newTotalQuantity := holding.quantity + quantity;
            var newAveragePrice := (holding.quantity as real * holding.averagePrice + totalAmount) / newTotalQuantity as real;
            assert newAveragePrice == WeightedAverage(holding.quantity, holding.averagePrice, quantity, price);
            holdings := holdings[key := Holding(newTotalQuantity, newAveragePrice)];
          } else {
            holdings := holdings[key := Holding(quantity, price)];
          }
          assert holdings == before.holdings[key := Bought(Lookup(before.holdings, key), quantity, price)];
        case Sell =>
          if key !in holdings || holdings[key].quantity < quantity {
            return InsufficientHoldings;
          }
          if user !in balances {
            return UserNotFound;
          }
          balances := balances[user := balances[user] + totalAmount];
          var remaining := holdings[key].quantity - quantity;
          if remaining == 0 {
            holdings := holdings - {key};
          } else {
            holdings := holdings[key := Holding(remaining, holdings[key].averagePrice)];
          }
          assert Sold(before.holdings[key], quantity).None? <==> remaining == 0;
      }
      ledger := ledger + [Trade(user, symbol, side, quantity, price, totalAmount, now)];
      outcome := Ok(balances[user]);
      assert Step(Snapshot(), outcome) == Settle(before, user, order, now);
      if WellFormed(before) {
        SettlementProperties.SettlePreservesWellFormed(before, user, order, now);
      }
      forall opening | Reconciled(before, opening)
        ensures Reconciled(Snapshot(), opening)
      {
        SettlementProperties.SettlePreservesReconciled(before, opening, user, order, now);
      }
    }

    /** `GET /history` for `user`: that user's trades, newest first. */
    method TradeHistory(user: UserId) returns (trades: seq<Trade>)
      ensures History.NewestFirst(trades)
      ensures forall t :: multiset(trades)[t] == if t.userId == user then multiset(ledger)[t] else 0
    {
      trades := History.TradeHistory(ledger, user);
    }
  }
}
