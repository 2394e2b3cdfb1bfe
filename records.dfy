/**
 * The records the trade-settlement handler reads and writes: the holding
 * document (one open position of one user in one symbol) and the trade
 * document (one executed order). User ids and ticker symbols are strings.
 */
module Records {

  type UserId = string
  type Symbol = string

  /** The `type` field of a trade; the schema admits exactly these two values. */
  datatype Side = Buy | Sell

  /** A user's position in one symbol: share count and volume-weighted cost basis per share. */
  datatype Holding = Holding(quantity: nat, averagePrice: real)

  /** One executed order, as appended to the trade collection. */
  datatype Trade = Trade(
    userId: UserId,
    symbol: Symbol,
    side: Side,
    quantity: nat,
    price: real,
    totalAmount: real,
    timestamp: int)

  datatype Option<T> = None | Some(value: T)
}
