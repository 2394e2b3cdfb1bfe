/** What one settlement call promises, and what a sequence of calls keeps. */
module SettlementProperties {
  import opened Records
  import opened Settlement

  function Min(x: real, y: real): real { if x <= y then x else y }
  function Max(x: real, y: real): real { if x <= y then y else x }

  /**
   * The re-averaged cost keeps the position's total cost (old cost plus the
   * amount paid) and lies between the old average and the new price.
   */
  lemma WeightedAverageBounds(heldQty: nat, heldAvg: real, qty: nat, price: real)
    requires heldQty + qty > 0
    ensures (heldQty + qty) as real * WeightedAverage(heldQty, heldAvg, qty, price)
            == heldQty as real * heldAvg + qty as real * price
    ensures Min(heldAvg, price) <= WeightedAverage(heldQty, heldAvg, qty, price) <= Max(heldAvg, price)
  {
    var a, q := heldQty as real, qty as real;
    var n := a + q;
    var cost := a * heldAvg + q * price;
    var avg := WeightedAverage(heldQty, heldAvg, qty, price);
    assert avg == cost / n;
    QuotientTimesDivisor(cost, n);
    var lo, hi := Min(heldAvg, price), Max(heldAvg, price);
    // n * (avg - lo) splits into the two shares' excess over lo, both non-negative
    assert n * (avg - lo) == a * (heldAvg - lo) + q * (price - lo);
    ProductNonNegative(a, heldAvg - lo);
    ProductNonNegative(q, price - lo);
    FactorNonNegative(n, avg - lo);
    // n * (hi - avg) likewise splits into the two shares' shortfall below hi
    assert n * (hi - avg) == a * (hi - heldAvg) + q * (hi - price);
    ProductNonNegative(a, hi - heldAvg);
    ProductNonNegative(q, hi - price);
    FactorNonNegative(n, hi - avg);
  }

  lemma QuotientTimesDivisor(x: real, n: real)
    requires n > 0.0
    ensures n * (x / n) == x
  {
  }

  lemma ProductNonNegative(x: real, y: real)
    requires x >= 0.0 && y >= 0.0
    ensures x * y >= 0.0
  {
  }

  lemma FactorNonNegative(n: real, x: real)
    requires n > 0.0 && n * x >= 0.0
    ensures x >= 0.0
  {
  }

  /** A BUY is accepted exactly when the user exists and can pay; then the balance drops by the total. */
  lemma BuyAcceptance(b: Book, user: UserId, o: Order, now: int)
    requires o.side == Buy && o.quantity > 0 && o.price > 0.0
    ensures var s := Settle(b, user, o, now);
      && (user !in b.balances ==> s.outcome == UserNotFound)
      && (user in b.balances && b.balances[user] < TotalAmount(o) ==> s.outcome == InsufficientBalance)
      && (s.outcome.Ok? <==> user in b.balances && b.balances[user] >= TotalAmount(o))
      && (s.outcome.Ok? ==>
            s.outcome.balance == b.balances[user] - o.quantity as real * o.price
            && s.book.balances == b.balances[user := s.outcome.balance])
  {
  }

  /**
   * An accepted BUY adds exactly the bought shares to the position. A new
   * position costs the price paid; an existing one is re-averaged between
   * its old average and the price.
   */
  lemma BuyUpdatesHolding(b: Book, user: UserId, o: Order, now: int)
    requires o.side == Buy && o.quantity > 0 && o.price > 0.0
    ensures var s := Settle(b, user, o, now);
      var key := (user, o.symbol);
      s.outcome.Ok? ==>
        && key in s.book.holdings
        && HeldQuantity(s.book.holdings, user, o.symbol) == HeldQuantity(b.holdings, user, o.symbol) + o.quantity
        && (key !in b.holdings ==> s.book.holdings[key] == Holding(o.quantity, o.price))
        && (key in b.holdings ==>
              var h := b.holdings[key];
              var avg := s.book.holdings[key].averagePrice;
              && (h.quantity + o.quantity) as real * avg == h.quantity as real * h.averagePrice + TotalAmount(o)
              && Min(h.averagePrice, o.price) <= avg <= Max(h.averagePrice, o.price))
  {
    var key := (user, o.symbol);
    if key in b.holdings {
      var h := b.holdings[key];
      WeightedAverageBounds(h.quantity, h.averagePrice, o.quantity, o.price);
    }
  }

  /** A SELL is accepted exactly when the user exists and holds at least the shares sold. */
  lemma SellAcceptance(b: Book, user: UserId, o: Order, now: int)
    requires o.side == Sell && o.quantity > 0 && o.price > 0.0
    ensures var s := Settle(b, user, o, now);
      && (HeldQuantity(b.holdings, user, o.symbol) < o.quantity ==> s.outcome == InsufficientHoldings)
      && (user !in b.balances && HeldQuantity(b.holdings, user, o.symbol) >= o.quantity ==> s.outcome == UserNotFound)
      && (s.outcome.Ok? <==> user in b.balances && HeldQuantity(b.holdings, user, o.symbol) >= o.quantity)
      && (s.outcome.Ok? ==>
            s.outcome.balance == b.balances[user] + o.quantity as real * o.price
            && s.book.balances == b.balances[user := s.outcome.balance])
  {
  }

  /**
   * An accepted SELL removes exactly the sold shares; the holding is deleted
   * exactly when none are left, and otherwise keeps its average price.
   */
  lemma SellUpdatesHolding(b: Book, user: UserId, o: Order, now: int)
    requires o.side == Sell && o.quantity > 0 && o.price > 0.0
    ensures var s := Settle(b, user, o, now);
      var key := (user, o.symbol);
      s.outcome.Ok? ==>
        && HeldQuantity(s.book.holdings, user, o.symbol) == HeldQuantity(b.holdings, user, o.symbol) - o.quantity
        && (key in s.book.holdings <==> HeldQuantity(b.holdings, user, o.symbol) > o.quantity)
        && (key in s.book.holdings ==> s.book.holdings[key].averagePrice == b.holdings[key].averagePrice)
  {
  }

  /** A rejected order changes no balance, no holding and no ledger entry. */
  lemma RejectionChangesNothing(b: Book, user: UserId, o: Order, now: int)
    requires o.quantity > 0 && o.price > 0.0
    ensures !Settle(b, user, o, now).outcome.Ok? ==> Settle(b, user, o, now).book == b
  {
  }

  /** Resubmitting a rejected order is rejected again with the same answer and still changes nothing. */
  lemma RejectionIsRepeatable(b: Book, user: UserId, o: Order, now: int, later: int)
    requires o.quantity > 0 && o.price > 0.0
    requires !Settle(b, user, o, now).outcome.Ok?
    ensures Settle(Settle(b, user, o, now).book, user, o, later) == Settle(b, user, o, now)
  {
    RejectionChangesNothing(b, user, o, now);
  }

  /**
   * An accepted order appends exactly one trade that echoes the order, with
   * total = quantity * price; earlier entries stay as they were, and the
   * balance reported is the one stored.
   */
  lemma AcceptedAppendsOneTrade(b: Book, user: UserId, o: Order, now: int)
    requires o.quantity > 0 && o.price > 0.0
    ensures var s := Settle(b, user, o, now);
      s.outcome.Ok? ==>
        && |s.book.ledger| == |b.ledger| + 1
        && s.book.ledger[..|b.ledger|] == b.ledger
        && s.book.ledger[|b.ledger|] == Trade(user, o.symbol, o.side, o.quantity, o.price, o.quantity as real * o.price, now)
        && user in s.book.balances && s.book.balances[user] == s.outcome.balance
  {
    var s := Settle(b, user, o, now);
    if s.outcome.Ok? {
      assert (b.ledger + [s.book.ledger[|b.ledger|]])[..|b.ledger|] == b.ledger;
    }
  }

  /** An order touches only the caller's balance and the caller's holding in that symbol. */
  lemma OnlyCallerAffected(b: Book, user: UserId, o: Order, now: int)
    requires o.quantity > 0 && o.price > 0.0
    ensures var s := Settle(b, user, o, now);
      && s.book.balances.Keys == b.balances.Keys
      && (forall u :: u in b.balances && u != user ==> s.book.balances[u] == b.balances[u])
      && (forall k :: k != (user, o.symbol) ==> Lookup(s.book.holdings, k) == Lookup(b.holdings, k))
  {
  }

  /** Settlement keeps balances non-negative, holdings non-empty at a positive cost, and totals exact. */
  lemma SettlePreservesWellFormed(b: Book, user: UserId, o: Order, now: int)
    requires o.quantity > 0 && o.price > 0.0
    requires WellFormed(b)
    ensures WellFormed(Settle(b, user, o, now).book)
  {
    var s := Settle(b, user, o, now);
    if s.outcome.Ok? {
      var t := Trade(user, o.symbol, o.side, o.quantity, o.price, TotalAmount(o), now);
      AcceptedAppendsOneTrade(b, user, o, now);
      assert s.book.ledger == b.ledger + [t];
      assert TotalsExact(s.book.ledger) by {
        forall i | 0 <= i < |s.book.ledger|
          ensures s.book.ledger[i].totalAmount == s.book.ledger[i].quantity as real * s.book.ledger[i].price
        {
          if i < |b.ledger| { assert s.book.ledger[i] == b.ledger[i]; }
        }
      }
      assert BalancesNonNegative(s.book.balances) by {
        if o.side == Buy { BuyAcceptance(b, user, o, now); } else { SellAcceptance(b, user, o, now); }
      }
    }
    HoldingsStayPositive(b, user, o, now);
  }

  lemma HoldingsStayPositive(b: Book, user: UserId, o: Order, now: int)
    requires o.quantity > 0 && o.price > 0.0
    requires HoldingsPositive(b.holdings)
    ensures HoldingsPositive(Settle(b, user, o, now).book.holdings)
  {
    var s := Settle(b, user, o, now);
    var key := (user, o.symbol);
    if s.outcome.Ok? {
      if o.side == Buy {
        var h := Bought(Lookup(b.holdings, key), o.quantity, o.price);
        assert s.book.holdings == b.holdings[key := h];
        if key in b.holdings {
          var prev := b.holdings[key];
          WeightedAverageBounds(prev.quantity, prev.averagePrice, o.quantity, o.price);
        }
        assert h.quantity > 0 && h.averagePrice > 0.0;
      } else {
        assert forall k :: k in s.book.holdings ==> k in b.holdings && s.book.holdings[k].averagePrice == b.holdings[k].averagePrice;
      }
    }
  }

  /** Appending one trade adds its own signed cash and share count, and nothing for other users or symbols. */
  lemma {:induction false} AppendOne(ledger: seq<Trade>, t: Trade, user: UserId, symbol: Symbol)
    ensures CashFlow(ledger + [t], user)
            == CashFlow(ledger, user)
               + (if t.userId != user then 0.0 else match t.side case Buy => -t.totalAmount case Sell => t.totalAmount)
    ensures NetQuantity(ledger + [t], user, symbol)
            == NetQuantity(ledger, user, symbol)
               + (if t.userId != user || t.symbol != symbol then 0
                  else match t.side case Buy => t.quantity as int case Sell => -(t.quantity as int))
  {
    assert (ledger + [t])[..|ledger|] == ledger;
  }

  /** With no trades yet, the opening balances and an empty holding store agree with the ledger. */
  lemma OpeningIsReconciled(opening: map<UserId, real>)
    ensures Reconciled(Book(opening, map[], []), opening)
  {
  }

  /**
   * Balance, holdings and ledger stay consistent with each other across a
   * settlement, accepted or rejected.
   */
  lemma SettlePreservesReconciled(b: Book, opening: map<UserId, real>, user: UserId, o: Order, now: int)
    requires o.quantity > 0 && o.price > 0.0
    requires Reconciled(b, opening)
    ensures Reconciled(Settle(b, user, o, now).book, opening)
  {
    var s := Settle(b, user, o, now);
    if s.outcome.Ok? {
      var t := Trade(user, o.symbol, o.side, o.quantity, o.price, TotalAmount(o), now);
      OnlyCallerAffected(b, user, o, now);
      ReconciledBalances(b, opening, user, o, now, t);
      ReconciledHoldings(b, opening, user, o, now, t);
    } else {
      RejectionChangesNothing(b, user, o, now);
    }
  }

  lemma ReconciledBalances(b: Book, opening: map<UserId, real>, user: UserId, o: Order, now: int, t: Trade)
    requires o.quantity > 0 && o.price > 0.0
    requires Reconciled(b, opening)
    requires t == Trade(user, o.symbol, o.side, o.quantity, o.price, TotalAmount(o), now)
    requires Settle(b, user, o, now).outcome.Ok?
    ensures var s := Settle(b, user, o, now);
      forall u :: u in opening ==> s.book.balances[u] == opening[u] + CashFlow(s.book.ledger, u)
  {
    var s := Settle(b, user, o, now);
    assert s.book.ledger == b.ledger + [t];
    assert s.book.balances == b.balances[user := s.outcome.balance];
    forall u | u in opening
      ensures s.book.balances[u] == opening[u] + CashFlow(s.book.ledger, u)
    {
      AppendOne(b.ledger, t, u, o.symbol);
    }
  }

  lemma ReconciledHoldings(b: Book, opening: map<UserId, real>, user: UserId, o: Order, now: int, t: Trade)
    requires o.quantity > 0 && o.price > 0.0
    requires Reconciled(b, opening)
    requires t == Trade(user, o.symbol, o.side, o.quantity, o.price, TotalAmount(o), now)
    requires Settle(b, user, o, now).outcome.Ok?
    ensures var s := Settle(b, user, o, now);
      forall u, sym :: HeldQuantity(s.book.holdings, u, sym) == NetQuantity(s.book.ledger, u, sym)
  {
    var s := Settle(b, user, o, now);
    assert s.book.ledger == b.ledger + [t];
    forall u, sym
      ensures HeldQuantity(s.book.holdings, u, sym) == NetQuantity(s.book.ledger, u, sym)
    {
      AppendOne(b.ledger, t, u, sym);
      assert HeldQuantity(b.holdings, u, sym) == NetQuantity(b.ledger, u, sym);
      if o.side == Buy {
        BuyUpdatesHolding(b, user, o, now);
      } else {
        SellUpdatesHolding(b, user, o, now);
      }
      OnlyCallerAffected(b, user, o, now);
      if (u, sym) != (user, o.symbol) {
        assert Lookup(s.book.holdings, (u, sym)) == Lookup(b.holdings, (u, sym));
      }
    }
  }

  /**
   * Paying for a BUY moves cash into the position's cost basis: balance plus
   * the holding's total cost is the same before and after.
   */
  lemma BuyKeepsCashPlusCost(b: Book, user: UserId, o: Order, now: int)
    requires o.side == Buy && o.quantity > 0 && o.price > 0.0
    ensures var s := Settle(b, user, o, now);
      s.outcome.Ok? ==>
        s.book.balances[user] + Cost(Lookup(s.book.holdings, (user, o.symbol)))
        == b.balances[user] + Cost(Lookup(b.holdings, (user, o.symbol)))
  {
    var key := (user, o.symbol);
    if key in b.holdings {
      var h := b.holdings[key];
      WeightedAverageBounds(h.quantity, h.averagePrice, o.quantity, o.price);
    }
  }

  /**
   * A SELL realises profit or loss against the average cost: balance plus
   * cost basis grows by quantity * (price - averagePrice).
   */
  lemma SellRealisesProfit(b: Book, user: UserId, o: Order, now: int)
    requires o.side == Sell && o.quantity > 0 && o.price > 0.0
    ensures var s := Settle(b, user, o, now);
      var key := (user, o.symbol);
      s.outcome.Ok? ==>
        s.book.balances[user] + Cost(Lookup(s.book.holdings, key))
        == b.balances[user] + Cost(Lookup(b.holdings, key))
           + o.quantity as real * (o.price - b.holdings[key].averagePrice)
  {
    var key := (user, o.symbol);
    if Settle(b, user, o, now).outcome.Ok? {
      var h := b.holdings[key];
      assert (h.quantity - o.quantity) as real * h.averagePrice
             == h.quantity as real * h.averagePrice - o.quantity as real * h.averagePrice;
    }
  }

  /** Total cost basis of a position; an absent position costs nothing. */
  function Cost(h: Option<Holding>): real
  {
    match h
    case None => 0.0
    case Some(x) => x.quantity as real * x.averagePrice
  }

  /**
   * `n` unit BUYs at `price` by a user holding at least `n * price` all
   * succeed: the balance drops by exactly `n * price` (to zero when it was
   * exactly that), the position grows by exactly `n` shares and the ledger by
   * `n` trades.
   */
  lemma UnitBuysAllSettle(b: Book, user: UserId, symbol: Symbol, price: real, n: nat, now: int)
    requires price > 0.0
    requires user in b.balances && b.balances[user] >= n as real * price
    ensures var f := RepeatUnitBuys(b, user, symbol, price, n, now);
      && user in f.balances
      && f.balances[user] == b.balances[user] - n as real * price
      && HeldQuantity(f.holdings, user, symbol) == HeldQuantity(b.holdings, user, symbol) + n
      && |f.ledger| == |b.ledger| + n
  {
    RepeatedPriceIsProduct(n, price);
    UnitBuysSpendRepeatedPrice(b, user, symbol, price, n, now);
  }

  /** `price` added up `k` times; keeps the induction below free of products. */
  function RepeatedPrice(k: nat, price: real): real
  {
    if k == 0 then 0.0 else RepeatedPrice(k - 1, price) + price
  }

  lemma {:induction false} RepeatedPriceIsProduct(k: nat, price: real)
    ensures RepeatedPrice(k, price) == k as real * price
  {
    if k > 0 {
      RepeatedPriceIsProduct(k - 1, price);
    }
  }

  lemma {:induction false} RepeatedPriceNonNegative(k: nat, price: real)
    requires price > 0.0
    ensures RepeatedPrice(k, price) >= 0.0
  {
    if k > 0 {
      RepeatedPriceNonNegative(k - 1, price);
    }
  }

  lemma {:induction false} UnitBuysSpendRepeatedPrice(b: Book, user: UserId, symbol: Symbol, price: real, n: nat, now: int)
    requires price > 0.0
    requires user in b.balances && b.balances[user] >= RepeatedPrice(n, price)
    ensures var f := RepeatUnitBuys(b, user, symbol, price, n, now);
      && user in f.balances
      && f.balances[user] == b.balances[user] - RepeatedPrice(n, price)
      && HeldQuantity(f.holdings, user, symbol) == HeldQuantity(b.holdings, user, symbol) + n
      && |f.ledger| == |b.ledger| + n
    decreases n
  {
    if n > 0 {
      var next := Settle(b, user, Order(symbol, Buy, 1, price), now).book;
      RepeatedPriceNonNegative(n - 1, price);
      UnitBuyStep(b, user, symbol, price, now);
      UnitBuysSpendRepeatedPrice(next, user, symbol, price, n - 1, now);
      assert RepeatUnitBuys(b, user, symbol, price, n, now) == RepeatUnitBuys(next, user, symbol, price, n - 1, now);
    }
  }

  /** One unit BUY that the balance covers is accepted and moves one share and one price. */
  lemma UnitBuyStep(b: Book, user: UserId, symbol: Symbol, price: real, now: int)
    requires price > 0.0
    requires user in b.balances && b.balances[user] >= price
    ensures var s := Settle(b, user, Order(symbol, Buy, 1, price), now);
      && user in s.book.balances
      && s.book.balances[user] == b.balances[user] - price
      && HeldQuantity(s.book.holdings, user, symbol) == HeldQuantity(b.holdings, user, symbol) + 1
      && |s.book.ledger| == |b.ledger| + 1
  {
    var o := Order(symbol, Buy, 1, price);
    assert TotalAmount(o) == price;
    BuyAcceptance(b, user, o, now);
    BuyUpdatesHolding(b, user, o, now);
  }

  /**
   * The documented walk-through: from 10000, BUY 10@100, BUY 10@120,
   * SELL 5@130, SELL 15@50.
   */
  lemma WalkThrough()
    ensures var b0 := Book(map["alice" := 10000.0], map[], []);
      var s1 := Settle(b0, "alice", Order("AAA", Buy, 10, 100.0), 1);
      var s2 := Settle(s1.book, "alice", Order("AAA", Buy, 10, 120.0), 2);
      var s3 := Settle(s2.book, "alice", Order("AAA", Sell, 5, 130.0), 3);
      var s4 := Settle(s3.book, "alice", Order("AAA", Sell, 15, 50.0), 4);
      && s1.outcome == Ok(9000.0) && s1.book.holdings[("alice", "AAA")] == Holding(10, 100.0)
      && s2.outcome == Ok(7800.0) && s2.book.holdings[("alice", "AAA")] == Holding(20, 110.0)
      && s3.outcome == Ok(8450.0) && s3.book.holdings[("alice", "AAA")] == Holding(15, 110.0)
      && s4.outcome == Ok(9200.0) && ("alice", "AAA") !in s4.book.holdings
      && |s4.book.ledger| == 4
  {
  }
}
