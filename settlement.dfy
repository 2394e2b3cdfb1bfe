/**
 * The settlement step of `POST /trades/place` as a function on a value
 * holding the three stores: the balance per user, the holding per
 * (user, symbol) and the append-only trade ledger.
 */
module Settlement {
  import opened Records

  /** What the caller sends: symbol, side, share count and execution price. */
  datatype Order = Order(symbol: Symbol, side: Side, quantity: nat, price: real)

  /**
   * The handler's answers: success with the new balance, the two business
   * rejections (HTTP 400), and the server error raised when the user record
   * is missing (reading `balance` of a null user throws, giving HTTP 500).
   */
  datatype Outcome = Ok(balance: real) | InsufficientBalance | InsufficientHoldings | UserNotFound

  datatype Book = Book(
    balances: map<UserId, real>,
    holdings: map<(UserId, Symbol), Holding>,
    ledger: seq<Trade>)

  /** The state after one call together with the answer it gave. */
  datatype Step = Step(book: Book, outcome: Outcome)

  function TotalAmount(o: Order): real
  {
    o.quantity as real * o.price
  }

  function Lookup(holdings: map<(UserId, Symbol), Holding>, key: (UserId, Symbol)): Option<Holding>
  {
    if key in holdings then Some(holdings[key]) else None
  }

  /** Shares held; an absent holding holds none. */
  function HeldQuantity(holdings: map<(UserId, Symbol), Holding>, user: UserId, symbol: Symbol): nat
  {
    if (user, symbol) in holdings then holdings[(user, symbol)].quantity else 0
  }

  /** Cost basis of a buy added to a position of `heldQty` shares bought at `heldAvg` on average. */
  function WeightedAverage(heldQty: nat, heldAvg: real, qty: nat, price: real): real
    requires heldQty + qty > 0
  {
    (heldQty as real * heldAvg + qty as real * price) / (heldQty + qty) as real
  }

  /** The holding after a BUY of `qty` at `price`: created, or grown with a re-averaged cost. */
  function Bought(h: Option<Holding>, qty: nat, price: real): Holding
    requires qty > 0
  {
    match h
    case None => Holding(qty, price)
    case Some(prev) => Holding(prev.quantity + qty, WeightedAverage(prev.quantity, prev.averagePrice, qty, price))
  }

  /** The holding after a SELL of `qty`: gone when nothing is left, else smaller at the same cost. */
  function Sold(h: Holding, qty: nat): Option<Holding>
    requires qty <= h.quantity
  {
    if h.quantity - qty == 0 then None else Some(Holding(h.quantity - qty, h.averagePrice))
  }

  /**
   * One call of the handler by `user`, at clock reading `now`.
   * The source never checks that quantity and price are positive; the model
   * takes that as what callers must ensure.
   */
  function Settle(b: Book, user: UserId, o: Order, now: int): Step
    requires o.quantity > 0 && o.price > 0.0
  {
    var key := (user, o.symbol);
    var total := TotalAmount(o);
    var trade := Trade(user, o.symbol, o.side, o.quantity, o.price, total, now);
    match o.side
    case Buy =>
      if user !in b.balances then Step(b, UserNotFound)
      else if b.balances[user] < total then Step(b, InsufficientBalance)
      else
        var balance := b.balances[user] - total;
        var holdings := b.holdings[key := Bought(Lookup(b.holdings, key), o.quantity, o.price)];
        Step(Book(b.balances[user := balance], holdings, b.ledger + [trade]), Ok(balance))
    case Sell =>
      if key !in b.holdings || b.holdings[key].quantity < o.quantity then Step(b, InsufficientHoldings)
      else if user !in b.balances then Step(b, UserNotFound)
      else
        var balance := b.balances[user] + total;
        var holdings := match Sold(b.holdings[key], o.quantity)
                        case None => b.holdings - {key}
                        case Some(h) => b.holdings[key := h];
        Step(Book(b.balances[user := balance], holdings, b.ledger + [trade]), Ok(balance))
  }

  /** The invariants the stores keep: no negative balance, no empty or free holding, exact totals. */
  ghost predicate WellFormed(b: Book)
  {
    BalancesNonNegative(b.balances) && HoldingsPositive(b.holdings) && TotalsExact(b.ledger)
  }

  ghost predicate BalancesNonNegative(balances: map<UserId, real>)
  {
    forall u :: u in balances ==> balances[u] >= 0.0
  }

  ghost predicate HoldingsPositive(holdings: map<(UserId, Symbol), Holding>)
  {
    forall k :: k in holdings ==> holdings[k].quantity > 0 && holdings[k].averagePrice > 0.0
  }

  ghost predicate TotalsExact(ledger: seq<Trade>)
  {
    forall i :: 0 <= i < |ledger| ==>
      ledger[i].quantity > 0 && ledger[i].price > 0.0
      && ledger[i].totalAmount == ledger[i].quantity as real * ledger[i].price
  }

  /** Cash a user's trades moved: BUYs pay out their total, SELLs bring it in. */
  function CashFlow(ledger: seq<Trade>, user: UserId): real
  {
    if ledger == [] then 0.0
    else
      var t := ledger[|ledger| - 1];
      CashFlow(ledger[..|ledger| - 1], user)
      + (if t.userId != user then 0.0 else match t.side case Buy => -t.totalAmount case Sell => t.totalAmount)
  }

  /** Net shares of `symbol` a user's trades acquired: BUYs add, SELLs subtract. */
  function NetQuantity(ledger: seq<Trade>, user: UserId, symbol: Symbol): int
  {
    if ledger == [] then 0
    else
      var t := ledger[|ledger| - 1];
      NetQuantity(ledger[..|ledger| - 1], user, symbol)
      + (if t.userId != user || t.symbol != symbol then 0
         else match t.side case Buy => t.quantity as int case Sell => -(t.quantity as int))
  }

  /**
   * The three stores agree with each other: every balance is its opening
   * balance plus the cash the ledger moved, and every holding holds exactly
   * the net shares the ledger acquired.
   */
  ghost predicate Reconciled(b: Book, opening: map<UserId, real>)
  {
    && b.balances.Keys == opening.Keys
    && (forall u :: u in opening ==> b.balances[u] == opening[u] + CashFlow(b.ledger, u))
    && (forall u, s :: HeldQuantity(b.holdings, u, s) == NetQuantity(b.ledger, u, s))
  }

  /** `n` unit BUYs of `symbol` at `price`, settled one after another. */
  function RepeatUnitBuys(b: Book, user: UserId, symbol: Symbol, price: real, n: nat, now: int): Book
    requires price > 0.0
    decreases n
  {
    if n == 0 then b
    else RepeatUnitBuys(Settle(b, user, Order(symbol, Buy, 1, price), now).book, user, symbol, price, n - 1, now)
  }
}
