/**
 * The BUY balance rule exactly as the handler applies it, with the
 * quantity taken as any integer the request body carries: nothing checks
 * its sign.
 */
module AsWritten {
  import opened Records
  import opened Settlement
  import SettlementProperties

  /**
   * The new balance when the BUY passes the `balance < total` test, or None
   * when it is rejected. A positive order can only lower the balance; an
   * order with a negative quantity is always accepted and raises it.
   */
  function BuyBalance(balance: real, quantity: int, price: real): (r: Option<real>)
    ensures quantity > 0 && price > 0.0 && r.Some? ==> 0.0 <= r.value < balance
    ensures balance >= 0.0 && quantity < 0 && price > 0.0 ==> r.Some? && r.value > balance
  {
    var totalAmount := quantity as real * price;
    if balance < totalAmount then None else Some(balance - totalAmount)
  }

  /** A BUY of -10 shares at 100 from an empty account is accepted and credits 1000. */
  lemma NegativeBuyCreditsCash()
    ensures BuyBalance(0.0, -10, 100.0) == Some(1000.0)
  {
  }

  /**
   * On the orders the settlement model admits, the as-written rule and the
   * model's BUY agree: same acceptance, same new balance.
   */
  lemma BuyBalanceAgreesWithSettle(b: Book, user: UserId, o: Order, now: int)
    requires o.side == Buy && o.quantity > 0 && o.price > 0.0
    requires user in b.balances
    ensures var s := Settle(b, user, o, now);
      BuyBalance(b.balances[user], o.quantity, o.price)
      == if s.outcome.Ok? then Some(s.outcome.balance) else None
  {
    SettlementProperties.BuyAcceptance(b, user, o, now);
  }
}
