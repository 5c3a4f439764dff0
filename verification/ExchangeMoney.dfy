/** Where the money goes: locks, balances and fees, for one settlement and for every operation. */
module ExchangeMoney {
  import opened Sums
  import opened Amounts
  import opened ExchangeTypes
  import opened Matching
  import opened ExchangeState
  import opened ExchangeFills

  // ---- One settlement, seen from its buyer and its seller ----

  function Buyer(t: Trade): WalletId { if t.side == Buy then t.takerWallet else t.makerWallet }

  function Seller(t: Trade): WalletId { if t.side == Buy then t.makerWallet else t.takerWallet }

  function BuyerFee(t: Trade): int { if t.side == Buy then t.takerFee else t.makerFee }

  function SellerFee(t: Trade): int { if t.side == Buy then t.makerFee else t.takerFee }

  function Value(t: Trade): int { QuoteValue(t.price, t.quantity) }

  /** The buyer gains the base units and pays their value and its fee; the seller gives the units up for
      the value less its fee; nobody else is touched. */
  function BalanceDelta(pair: Pair, t: Trade, w: WalletId, d: Denom): int {
    if w == Buyer(t) then
      if d == pair.base then t.quantity else if d == pair.quote then -Value(t) - BuyerFee(t) else 0
    else if w == Seller(t) then
      if d == pair.base then -t.quantity else if d == pair.quote then Value(t) - SellerFee(t) else 0
    else 0
  }

  /** The buyer's lock gives up the value, the seller's the units. */
  function LockDelta(pair: Pair, t: Trade, w: WalletId, d: Denom): int {
    if w == Buyer(t) && d == pair.quote then -Value(t)
    else if w == Seller(t) && d == pair.base then -t.quantity
    else 0
  }

  /** The same owner, tier and standing. */
  predicate SameOwner(w: Wallet, w': Wallet) { w'.user == w.user && w'.tier == w.tier && w'.active == w.active }

  /** `ws'` is `ws` after trade `t`. */
  ghost predicate Moved(pair: Pair, ws: Wallets, t: Trade, ws': Wallets) {
    && ws'.Keys == ws.Keys
    && (forall w :: w in ws ==> SameOwner(ws[w], ws'[w]))
    && (forall w, d :: w in ws ==> ws'[w].Balance(d) == ws[w].Balance(d) + BalanceDelta(pair, t, w, d))
    && (forall w, d :: w in ws ==> ws'[w].Locked(d) == ws[w].Locked(d) + LockDelta(pair, t, w, d))
  }

  lemma BuyerMoves(pair: Pair, w: Wallet, q: int, units: int, fee: int, d: Denom)
    requires pair.base != pair.quote
    ensures var w' := AsBuyer(pair, w, q, units, fee);
            && SameOwner(w, w')
            && w'.Balance(d) == w.Balance(d) + (if d == pair.base then units else if d == pair.quote then -q - fee else 0)
            && w'.Locked(d) == w.Locked(d) + (if d == pair.quote then -q else 0)
  {
  }

  lemma SellerMoves(pair: Pair, w: Wallet, q: int, units: int, fee: int, d: Denom)
    requires pair.base != pair.quote
    ensures var w' := AsSeller(pair, w, q, units, fee);
            && SameOwner(w, w')
            && w'.Balance(d) == w.Balance(d) + (if d == pair.base then -units else if d == pair.quote then q - fee else 0)
            && w'.Locked(d) == w.Locked(d) + (if d == pair.base then -units else 0)
  {
  }

  /** Settling leaves each wallet as the buyer's, the seller's, or as it was. */
  lemma SettleWallets(pair: Pair, ws: Wallets, t: Trade)
    requires t.makerWallet in ws && t.takerWallet in ws && t.makerWallet != t.takerWallet
    ensures var ws' := Settle(pair, ws, t);
            && ws'.Keys == ws.Keys
            && ws'[Buyer(t)] == AsBuyer(pair, ws[Buyer(t)], Value(t), t.quantity, BuyerFee(t))
            && ws'[Seller(t)] == AsSeller(pair, ws[Seller(t)], Value(t), t.quantity, SellerFee(t))
            && forall w :: w in ws && w != Buyer(t) && w != Seller(t) ==> ws'[w] == ws[w]
  {
  }

  lemma SettleMoves(pair: Pair, ws: Wallets, t: Trade)
    requires pair.base != pair.quote
    requires t.makerWallet in ws && t.takerWallet in ws && t.makerWallet != t.takerWallet
    ensures Moved(pair, ws, t, Settle(pair, ws, t))
  {
    var ws' := Settle(pair, ws, t);
    SettleWallets(pair, ws, t);
    forall w, d | w in ws
      ensures SameOwner(ws[w], ws'[w])
      ensures ws'[w].Balance(d) == ws[w].Balance(d) + BalanceDelta(pair, t, w, d)
      ensures ws'[w].Locked(d) == ws[w].Locked(d) + LockDelta(pair, t, w, d)
    {
      if w == Buyer(t) {
        BuyerMoves(pair, ws[w], Value(t), t.quantity, BuyerFee(t), d);
      } else if w == Seller(t) {
        SellerMoves(pair, ws[w], Value(t), t.quantity, SellerFee(t), d);
      }
    }
  }

  /** The trade a fill produces, between the wallets of the two orders. */
  lemma FillMoves(pair: Pair, s: State, taker: OrderId, f: Fill, at: Tick)
    requires pair.base != pair.quote
    requires Linked(s) && FillOk(s.orders, taker, f)
    ensures var t := TradeOf(pair, s, taker, f, at);
            var r := ApplyFill(pair, s, taker, f, at);
            && Moved(pair, s.wallets, t, r.wallets)
            && r.orders == OrdersAfter(s.orders, taker, f)
            && r.trades == s.trades + [t]
  {
    SettleMoves(pair, s.wallets, TradeOf(pair, s, taker, f, at));
  }

  // ---- Sums over orders ----

  lemma FillSum(orders: Orders, taker: OrderId, f: Fill, g: Order -> int)
    requires FillOk(orders, taker, f)
    ensures Sum(OrdersAfter(orders, taker, f), g)
         == Sum(orders, g)
            - g(orders[taker]) + g(orders[taker].Take(f.qty))
            - g(orders[f.maker]) + g(MakerAfter(orders[f.maker], f.qty))
  {
    var mid := orders[taker := orders[taker].Take(f.qty)];
    SumPut(orders, taker, orders[taker].Take(f.qty), g);
    SumPut(mid, f.maker, MakerAfter(orders[f.maker], f.qty), g);
  }

  /** The units of wallet `w` an order keeps locked as a sell. */
  function SellRemaining(w: WalletId): Order -> int {
    (o: Order) => if o.wallet == w && o.side == Sell && o.Active() then o.remaining else 0
  }

  /** The quote amount that would cover an order as a buy of wallet `w`. */
  function BuyCover(w: WalletId): Order -> int {
    (o: Order) => if o.wallet == w && o.side == Buy && o.Active() then QuoteValue(o.price, o.remaining) else 0
  }

  /** A lock in the base denomination is exactly what the wallet's active sell orders have left. */
  ghost predicate BaseLocksExact(pair: Pair, s: State) {
    forall w :: w in s.wallets ==> s.wallets[w].Locked(pair.base) == Sum(s.orders, SellRemaining(w))
  }

  function BuyOrder(t: Trade): OrderId { if t.side == Buy then t.takerOrder else t.makerOrder }

  /** No buy order of wallet `w` names a negative price, and none ever traded above its own price. */
  ghost predicate NoOverpay(orders: Orders, trades: seq<Trade>, w: WalletId) {
    && (forall id :: id in orders && orders[id].wallet == w && orders[id].side == Buy ==> orders[id].price >= 0)
    && (forall t :: t in trades && Buyer(t) == w && BuyOrder(t) in orders ==> t.price <= orders[BuyOrder(t)].price)
  }

  /** A wallet that never overpaid has locked enough quote to pay for all its active buy orders. */
  ghost predicate LockCover(pair: Pair, s: State) {
    forall w :: w in s.wallets && NoOverpay(s.orders, s.trades, w) ==>
      s.wallets[w].Locked(pair.quote) >= Sum(s.orders, BuyCover(w))
  }

  /** Every order of `orders` is still there, for the same wallet, side and price. */
  ghost predicate SameTerms(orders: Orders, orders': Orders) {
    forall id :: id in orders ==>
      && id in orders'
      && orders'[id].wallet == orders[id].wallet
      && orders'[id].side == orders[id].side
      && orders'[id].price == orders[id].price
  }

  /** Neither stored orders with the same terms nor a shorter log make a wallet overpay. */
  lemma OverpaidBefore(orders: Orders, trades: seq<Trade>, orders': Orders, trades': seq<Trade>, w: WalletId)
    requires NoOverpay(orders', trades', w) && trades <= trades'
    requires SameTerms(orders, orders')
    ensures NoOverpay(orders, trades, w)
  {
    forall t | t in trades && Buyer(t) == w && BuyOrder(t) in orders
      ensures t.price <= orders[BuyOrder(t)].price
    {
      assert t in trades' && BuyOrder(t) in orders';
    }
    forall id | id in orders && orders[id].wallet == w && orders[id].side == Buy
      ensures orders[id].price >= 0
    {
      assert id in orders';
    }
  }

  // ---- One fill keeps the locks ----

  lemma FillSellRemaining(orders: Orders, taker: OrderId, f: Fill, w: WalletId)
    requires FillOk(orders, taker, f)
    ensures Sum(OrdersAfter(orders, taker, f), SellRemaining(w))
         == Sum(orders, SellRemaining(w))
            - if (if orders[taker].side == Sell then orders[taker].wallet else orders[f.maker].wallet) == w
              then f.qty else 0
  {
    FillSum(orders, taker, f, SellRemaining(w));
  }

  lemma FillKeepsBaseLocks(pair: Pair, s: State, taker: OrderId, f: Fill, at: Tick)
    requires pair.base != pair.quote
    requires Linked(s) && FillOk(s.orders, taker, f) && BaseLocksExact(pair, s)
    ensures BaseLocksExact(pair, ApplyFill(pair, s, taker, f, at))
  {
    FillMoves(pair, s, taker, f, at);
    var r := ApplyFill(pair, s, taker, f, at);
    forall w | w in r.wallets
      ensures r.wallets[w].Locked(pair.base) == Sum(r.orders, SellRemaining(w))
    {
      FillBaseLock(pair, s, taker, f, at, w);
      FillSellRemaining(s.orders, taker, f, w);
    }
  }

  lemma FillBaseLock(pair: Pair, s: State, taker: OrderId, f: Fill, at: Tick, w: WalletId)
    requires pair.base != pair.quote
    requires Linked(s) && FillOk(s.orders, taker, f) && w in s.wallets
    ensures ApplyFill(pair, s, taker, f, at).wallets[w].Locked(pair.base)
         == s.wallets[w].Locked(pair.base)
            - if (if s.orders[taker].side == Sell then s.orders[taker].wallet else s.orders[f.maker].wallet) == w
              then f.qty else 0
  {
    FillMoves(pair, s, taker, f, at);
    var t := TradeOf(pair, s, taker, f, at);
    assert ApplyFill(pair, s, taker, f, at).wallets[w].Locked(pair.base)
        == s.wallets[w].Locked(pair.base) + LockDelta(pair, t, w, pair.base);
  }

  /** Filling `f.qty` units of an active limit buy at a price within its limit. */
  lemma CoverAfterTake(o: Order, o': Order, price: int, q: int, w: WalletId)
    requires o.side == Buy && 0 <= o.price && price <= o.price && 0 < q <= o.remaining
    requires o.Active() && o' == o.Take(q).(status := o'.status)
    ensures BuyCover(w)(o') <= BuyCover(w)(o) - if o.wallet == w then QuoteValue(price, q) else 0
  {
    FillFitsLock(o.price, price, o.remaining, q);
    QuoteValueNonNegative(o.price, o.remaining - q);
  }

  /** The buying order of a fill. */
  function Buying(orders: Orders, taker: OrderId, f: Fill): Order
    requires taker in orders && f.maker in orders
  {
    if orders[taker].side == Buy then orders[taker] else orders[f.maker]
  }

  /** What a fill within the buyer's price takes off the cover of its orders is at least what it takes off
      the lock. */
  lemma FillBuyCover(orders: Orders, taker: OrderId, f: Fill, w: WalletId)
    requires FillOk(orders, taker, f)
    requires Buying(orders, taker, f).wallet == w ==> 0 <= Buying(orders, taker, f).price && f.price <= Buying(orders, taker, f).price
    ensures Sum(OrdersAfter(orders, taker, f), BuyCover(w))
         <= Sum(orders, BuyCover(w)) - if Buying(orders, taker, f).wallet == w then QuoteValue(f.price, f.qty) else 0
  {
    var t, m := orders[taker], orders[f.maker];
    var t', m' := t.Take(f.qty), MakerAfter(m, f.qty);
    FillSum(orders, taker, f, BuyCover(w));
    if t.side == Buy {
      assert BuyCover(w)(m) == BuyCover(w)(m') == 0;
      if t.wallet == w { CoverAfterTake(t, t', f.price, f.qty, w); }
    } else {
      assert BuyCover(w)(t) == BuyCover(w)(t') == 0;
      if m.wallet == w { CoverAfterTake(m, m', f.price, f.qty, w); }
    }
  }

  lemma FillKeepsCover(pair: Pair, s: State, taker: OrderId, f: Fill, at: Tick)
    requires pair.base != pair.quote
    requires Linked(s) && FillOk(s.orders, taker, f) && LockCover(pair, s)
    ensures LockCover(pair, ApplyFill(pair, s, taker, f, at))
  {
    FillMoves(pair, s, taker, f, at);
    FillKeepsTerms(s.orders, taker, f);
    var r := ApplyFill(pair, s, taker, f, at);
    forall w | w in r.wallets && NoOverpay(r.orders, r.trades, w)
      ensures r.wallets[w].Locked(pair.quote) >= Sum(r.orders, BuyCover(w))
    {
      OverpaidBefore(s.orders, s.trades, r.orders, r.trades, w);
      FillKeepsCoverOf(pair, s, taker, f, at, w);
    }
  }

  lemma FillNotOverpaid(pair: Pair, s: State, taker: OrderId, f: Fill, at: Tick, w: WalletId)
    requires Linked(s) && FillOk(s.orders, taker, f)
    requires NoOverpay(OrdersAfter(s.orders, taker, f), s.trades + [TradeOf(pair, s, taker, f, at)], w)
    requires Buying(s.orders, taker, f).wallet == w
    ensures 0 <= Buying(s.orders, taker, f).price && f.price <= Buying(s.orders, taker, f).price
  {
    var t := TradeOf(pair, s, taker, f, at);
    FillKeepsTerms(s.orders, taker, f);
    var orders' := OrdersAfter(s.orders, taker, f);
    assert t in s.trades + [t];
    assert BuyOrder(t) in orders' && orders'[BuyOrder(t)].price == Buying(s.orders, taker, f).price;
    assert orders'[BuyOrder(t)].wallet == w && orders'[BuyOrder(t)].side == Buy;
  }

  lemma FillKeepsCoverOf(pair: Pair, s: State, taker: OrderId, f: Fill, at: Tick, w: WalletId)
    requires pair.base != pair.quote
    requires Linked(s) && FillOk(s.orders, taker, f)
    requires w in s.wallets
    requires NoOverpay(OrdersAfter(s.orders, taker, f), s.trades + [TradeOf(pair, s, taker, f, at)], w)
    requires s.wallets[w].Locked(pair.quote) >= Sum(s.orders, BuyCover(w))
    ensures ApplyFill(pair, s, taker, f, at).wallets[w].Locked(pair.quote)
         >= Sum(OrdersAfter(s.orders, taker, f), BuyCover(w))
  {
    FillQuoteLock(pair, s, taker, f, at, w);
    if Buying(s.orders, taker, f).wallet == w { FillNotOverpaid(pair, s, taker, f, at, w); }
    FillBuyCover(s.orders, taker, f, w);
  }

  lemma FillQuoteLock(pair: Pair, s: State, taker: OrderId, f: Fill, at: Tick, w: WalletId)
    requires pair.base != pair.quote
    requires Linked(s) && FillOk(s.orders, taker, f) && w in s.wallets
    ensures ApplyFill(pair, s, taker, f, at).wallets[w].Locked(pair.quote)
         == s.wallets[w].Locked(pair.quote)
            - if Buying(s.orders, taker, f).wallet == w then QuoteValue(f.price, f.qty) else 0
  {
    FillMoves(pair, s, taker, f, at);
    var t := TradeOf(pair, s, taker, f, at);
    assert ApplyFill(pair, s, taker, f, at).wallets[w].Locked(pair.quote)
        == s.wallets[w].Locked(pair.quote) + LockDelta(pair, t, w, pair.quote);
  }

  /** A fill changes no order's terms. */
  lemma FillKeepsTerms(orders: Orders, taker: OrderId, f: Fill)
    requires FillOk(orders, taker, f)
    ensures OrdersAfter(orders, taker, f).Keys == orders.Keys
    ensures forall id :: id in orders ==>
              var o, o' := orders[id], OrdersAfter(orders, taker, f)[id];
              o'.wallet == o.wallet && o'.side == o.side && o'.typ == o.typ && o'.price == o.price && o'.quantity == o.quantity
  {
  }

  // ---- Solvency ----

  function FeePaidAsBuyer(w: WalletId): Trade -> int {
    (t: Trade) => if Buyer(t) == w then BuyerFee(t) else 0
  }

  /** A wallet's free quote never falls below zero by more than the fees it was charged as a buyer, and its
      base balance always covers its base lock. */
  ghost predicate Solvent(pair: Pair, s: State) {
    forall w :: w in s.wallets ==>
      && s.wallets[w].Available(pair.quote) >= -SeqSum(s.trades, FeePaidAsBuyer(w))
      && s.wallets[w].Available(pair.base) >= 0
  }

  ghost predicate PricesNonNegative(orders: Orders) {
    forall id :: id in orders ==> orders[id].price >= 0
  }

  /** One wallet across a trade whose fees are within its value. */
  lemma MoveKeepsSolvent(pair: Pair, ws: Wallets, ws': Wallets, trades: seq<Trade>, t: Trade, w: WalletId)
    requires pair.base != pair.quote && Moved(pair, ws, t, ws') && w in ws
    requires Buyer(t) != Seller(t)
    requires SellerFee(t) <= Value(t)
    requires ws[w].Available(pair.quote) >= -SeqSum(trades, FeePaidAsBuyer(w))
    requires ws[w].Available(pair.base) >= 0 && t.quantity >= 0
    ensures ws'[w].Available(pair.quote) >= -SeqSum(trades + [t], FeePaidAsBuyer(w))
    ensures ws'[w].Available(pair.base) >= 0
  {
    SeqSumAppend(trades, t, FeePaidAsBuyer(w));
    assert ws'[w].Available(pair.quote)
        == ws[w].Available(pair.quote) + BalanceDelta(pair, t, w, pair.quote) - LockDelta(pair, t, w, pair.quote);
    assert ws'[w].Available(pair.base)
        == ws[w].Available(pair.base) + BalanceDelta(pair, t, w, pair.base) - LockDelta(pair, t, w, pair.base);
  }

  lemma FillKeepsSolvent(env: Env, s: State, taker: OrderId, f: Fill, at: Tick)
    requires env.Sound()
    requires Linked(s) && FillOk(s.orders, taker, f) && PricesNonNegative(s.orders) && Solvent(env.pair, s)
    ensures Solvent(env.pair, ApplyFill(env.pair, s, taker, f, at))
  {
    var pair := env.pair;
    FillMoves(pair, s, taker, f, at);
    var t := TradeOf(pair, s, taker, f, at);
    FeeWithinValue(f.price, f.qty, pair.makerFee);
    FeeWithinValue(f.price, f.qty, pair.takerFee);
    assert SellerFee(t) <= Value(t);
    var r := ApplyFill(pair, s, taker, f, at);
    forall w | w in r.wallets
      ensures r.wallets[w].Available(pair.quote) >= -SeqSum(r.trades, FeePaidAsBuyer(w))
      ensures r.wallets[w].Available(pair.base) >= 0
    {
      MoveKeepsSolvent(pair, s.wallets, r.wallets, s.trades, t, w);
    }
  }

  // ---- Conservation ----

  function BalanceIn(d: Denom): Wallet -> int { (w: Wallet) => w.Balance(d) }

  function FeesIn(pair: Pair, d: Denom): Trade -> int {
    (t: Trade) => if d == pair.quote then t.makerFee + t.takerFee else 0
  }

  /** Everything of `d` the exchange ever took in and has not paid out: the balances and the fees. */
  ghost function Holdings(pair: Pair, s: State, d: Denom): int {
    Sum(s.wallets, BalanceIn(d)) + SeqSum(s.trades, FeesIn(pair, d))
  }

  /** Two wallets' balances move, the rest stay. */
  lemma TwoMoved(ws: Wallets, ws': Wallets, a: WalletId, b: WalletId, g: Wallet -> int)
    requires a in ws && b in ws && a != b && ws'.Keys == ws.Keys
    requires forall w :: w in ws && w != a && w != b ==> g(ws'[w]) == g(ws[w])
    ensures Sum(ws', g) == Sum(ws, g) - g(ws[a]) + g(ws'[a]) - g(ws[b]) + g(ws'[b])
  {
    SumPick(ws, a, g);
    SumPick(ws', a, g);
    SumPick(ws - {a}, b, g);
    SumPick(ws' - {a}, b, g);
    SumSame(ws - {a} - {b}, ws' - {a} - {b}, g);
  }

  lemma FillKeepsHoldings(pair: Pair, s: State, taker: OrderId, f: Fill, at: Tick, d: Denom)
    requires pair.base != pair.quote
    requires Linked(s) && FillOk(s.orders, taker, f)
    ensures Holdings(pair, ApplyFill(pair, s, taker, f, at), d) == Holdings(pair, s, d)
  {
    FillMoves(pair, s, taker, f, at);
    var t := TradeOf(pair, s, taker, f, at);
    var r := ApplyFill(pair, s, taker, f, at);
    MoveBalances(pair, s.wallets, r.wallets, t, d);
    SeqSumAppend(s.trades, t, FeesIn(pair, d));
  }

  /** All balances together lose the fees of the trade and nothing else. */
  lemma MoveBalances(pair: Pair, ws: Wallets, ws': Wallets, t: Trade, d: Denom)
    requires pair.base != pair.quote && Moved(pair, ws, t, ws')
    requires Buyer(t) in ws && Seller(t) in ws && Buyer(t) != Seller(t)
    ensures Sum(ws', BalanceIn(d)) == Sum(ws, BalanceIn(d)) - FeesIn(pair, d)(t)
  {
    TwoMoved(ws, ws', Buyer(t), Seller(t), BalanceIn(d));
    assert ws'[Buyer(t)].Balance(d) == ws[Buyer(t)].Balance(d) + BalanceDelta(pair, t, Buyer(t), d);
    assert ws'[Seller(t)].Balance(d) == ws[Seller(t)].Balance(d) + BalanceDelta(pair, t, Seller(t), d);
  }
}
