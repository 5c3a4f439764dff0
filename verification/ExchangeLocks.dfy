/** The quote lock as an equation: what orders took, less what cancelling released and what trades used. It says
    exactly when the lock covers a wallet's active buys. */
module ExchangeLocks {
  import opened Sums
  import opened Amounts
  import opened ExchangeTypes
  import opened Matching
  import opened ExchangeState
  import opened ExchangeFills
  import opened ExchangeMoney

  /** What an order of wallet `w` took as a quote lock when it was placed, less what cancelling it released. */
  function LockTaken(w: WalletId): Order -> int {
    (o: Order) =>
      if o.wallet == w && o.side == Buy
      then QuoteValue(o.price, o.quantity) - if o.status == Cancelled then QuoteValue(o.price, o.remaining) else 0
      else 0
  }

  /** What trade `t` used of the quote lock of wallet `w`. */
  function Paid(w: WalletId): Trade -> int {
    (t: Trade) => if Buyer(t) == w then Value(t) else 0
  }

  /** Every quote lock is what the wallet's buys took and did not give back, less what its purchases cost. */
  ghost predicate QuoteLocksExact(pair: Pair, s: State) {
    forall w :: w in s.wallets ==>
      s.wallets[w].Locked(pair.quote) == Sum(s.orders, LockTaken(w)) - SeqSum(s.trades, Paid(w))
  }

  lemma FillLockTaken(orders: Orders, taker: OrderId, f: Fill, w: WalletId)
    requires FillOk(orders, taker, f)
    ensures Sum(OrdersAfter(orders, taker, f), LockTaken(w)) == Sum(orders, LockTaken(w))
  {
    FillSum(orders, taker, f, LockTaken(w));
  }

  lemma FillPaid(pair: Pair, s: State, taker: OrderId, f: Fill, at: Tick, w: WalletId)
    requires Linked(s) && FillOk(s.orders, taker, f)
    ensures SeqSum(ApplyFill(pair, s, taker, f, at).trades, Paid(w))
         == SeqSum(s.trades, Paid(w))
            + if Buying(s.orders, taker, f).wallet == w then QuoteValue(f.price, f.qty) else 0
  {
    SeqSumAppend(s.trades, TradeOf(pair, s, taker, f, at), Paid(w));
  }

  lemma FillKeepsQuoteLocks(pair: Pair, s: State, taker: OrderId, f: Fill, at: Tick)
    requires pair.base != pair.quote
    requires Linked(s) && FillOk(s.orders, taker, f) && QuoteLocksExact(pair, s)
    ensures QuoteLocksExact(pair, ApplyFill(pair, s, taker, f, at))
  {
    FillEffect(pair, s, taker, f, at);
    var r := ApplyFill(pair, s, taker, f, at);
    forall w | w in r.wallets
      ensures r.wallets[w].Locked(pair.quote) == Sum(r.orders, LockTaken(w)) - SeqSum(r.trades, Paid(w))
    {
      FillQuoteLock(pair, s, taker, f, at, w);
      FillLockTaken(s.orders, taker, f, w);
      FillPaid(pair, s, taker, f, at, w);
    }
  }

  // ---- When the lock covers the active buys ----

  /** What the filled part of an order of wallet `w` gave up for its trades, at the order's own price. */
  function Given(w: WalletId): Order -> int {
    (o: Order) =>
      if o.wallet == w && o.side == Buy then QuoteValue(o.price, o.quantity) - QuoteValue(o.price, o.remaining) else 0
  }

  /** What the quote lock of wallet `w` holds beyond the cover of its active buys. */
  ghost function Slack(pair: Pair, s: State, w: WalletId): int
    requires w in s.wallets
  {
    s.wallets[w].Locked(pair.quote) - Sum(s.orders, BuyCover(w))
  }

  /** A lock covers a wallet's active buys if and only if its purchases cost no more than its buys gave up for
      them; the difference is what stays locked beyond the cover. */
  lemma CoverExactly(pair: Pair, s: State, w: WalletId)
    requires QuoteLocksExact(pair, s) && w in s.wallets
    requires forall id :: id in s.orders ==> OrderOk(s.orders[id])
    ensures Slack(pair, s, w) == Sum(s.orders, Given(w)) - SeqSum(s.trades, Paid(w))
    ensures s.wallets[w].Locked(pair.quote) >= Sum(s.orders, BuyCover(w))
       <==> SeqSum(s.trades, Paid(w)) <= Sum(s.orders, Given(w))
  {
    forall id | id in s.orders
      ensures LockTaken(w)(s.orders[id]) == BuyCover(w)(s.orders[id]) + Given(w)(s.orders[id])
    {
      assert OrderOk(s.orders[id]);
    }
    SumPlus(s.orders, LockTaken(w), BuyCover(w), Given(w));
  }
}
