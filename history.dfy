/**
 * `GET /trades/history`: the requesting user's trades, newest first by
 * timestamp. Trades with equal timestamps may come in either order.
 */
module History {
  import opened Records
  import opened Settlement
  import SettlementProperties

  predicate NewestFirst(s: seq<Trade>)
  {
    forall i, j :: 0 <= i < j < |s| ==> s[i].timestamp >= s[j].timestamp
  }

  /** Places `t` into a newest-first sequence, ahead of every trade no newer than it. */
  function InsertByTime(t: Trade, s: seq<Trade>): (r: seq<Trade>)
    requires NewestFirst(s)
    ensures NewestFirst(r)
    ensures |r| == |s| + 1
    ensures multiset(r) == multiset(s) + multiset{t}
    ensures s != [] ==> r[0] == t || r[0] == s[0]
  {
    if s == [] || t.timestamp >= s[0].timestamp then
      ConsNewestFirst(t, s);
      [t] + s
    else
      var rest := InsertByTime(t, s[1..]);
      assert s == [s[0]] + s[1..];
      ConsNewestFirst(s[0], rest);
      [s[0]] + rest
  }

  /** Putting a trade in front of a newest-first sequence that starts no later keeps it newest first. */
  lemma ConsNewestFirst(x: Trade, s: seq<Trade>)
    requires NewestFirst(s)
    requires s != [] ==> s[0].timestamp <= x.timestamp
    ensures NewestFirst([x] + s)
  {
    var r := [x] + s;
    forall i, j | 0 <= i < j < |r|
      ensures r[i].timestamp >= r[j].timestamp
    {
      if i > 0 {
        assert r[i] == s[i - 1] && r[j] == s[j - 1];
      } else {
        assert r[j] == s[j - 1];
      }
    }
  }

  /** The trades of `user` in `ledger`, every one of them and no other, newest first. */
  function TradeHistory(ledger: seq<Trade>, user: UserId): (r: seq<Trade>)
    ensures NewestFirst(r)
    ensures forall t :: multiset(r)[t] == if t.userId == user then multiset(ledger)[t] else 0
  {
    if ledger == [] then []
    else
      var t := ledger[|ledger| - 1];
      var earlier := ledger[..|ledger| - 1];
      assert ledger == earlier + [t];
      var rest := TradeHistory(earlier, user);
      if t.userId == user then InsertByTime(t, rest) else rest
  }

  /**
   * A trade stamped strictly later than everything already recorded heads
   * its owner's history, and every other user's history is unchanged.
   */
  lemma AppendedTradeComesFirst(ledger: seq<Trade>, t: Trade)
    requires forall i :: 0 <= i < |ledger| ==> ledger[i].timestamp < t.timestamp
    ensures TradeHistory(ledger + [t], t.userId) == [t] + TradeHistory(ledger, t.userId)
    ensures forall u :: u != t.userId ==> TradeHistory(ledger + [t], u) == TradeHistory(ledger, u)
  {
    var full := ledger + [t];
    assert full[..|full| - 1] == ledger;
    var rest := TradeHistory(ledger, t.userId);
    if rest != [] {
      assert multiset(rest)[rest[0]] > 0;
      assert rest[0] in multiset(ledger);
      assert rest[0] in ledger;
    }
  }

  /**
   * With a clock that moves forward between orders, the trade an accepted
   * order records is the first entry of the caller's history afterwards.
   */
  lemma SettledTradeHeadsHistory(b: Book, user: UserId, o: Order, now: int)
    requires o.quantity > 0 && o.price > 0.0
    requires forall i :: 0 <= i < |b.ledger| ==> b.ledger[i].timestamp < now
    ensures var s := Settle(b, user, o, now);
      && (s.outcome.Ok? ==>
            TradeHistory(s.book.ledger, user)
            == [Trade(user, o.symbol, o.side, o.quantity, o.price, o.quantity as real * o.price, now)]
               + TradeHistory(b.ledger, user))
      && (!s.outcome.Ok? ==> TradeHistory(s.book.ledger, user) == TradeHistory(b.ledger, user))
  {
    var s := Settle(b, user, o, now);
    SettlementProperties.RejectionChangesNothing(b, user, o, now);
    SettlementProperties.AcceptedAppendsOneTrade(b, user, o, now);
    if s.outcome.Ok? {
      var t := Trade(user, o.symbol, o.side, o.quantity, o.price, TotalAmount(o), now);
      assert s.book.ledger == b.ledger + [t];
      AppendedTradeComesFirst(b.ledger, t);
    }
  }
}
