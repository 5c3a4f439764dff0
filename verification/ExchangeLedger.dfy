/** The trade log against the orders and the volume table, fill by fill. */
module ExchangeLedger {
  import opened Sums
  import opened Amounts
  import opened ExchangeTypes
  import opened Matching
  import opened ExchangeState
  import opened ExchangeFills
  import opened ExchangeMoney

  /** The units trade `t` filled of order `id`. */
  function FilledIn(id: OrderId): Trade -> int {
    (t: Trade) => (if t.makerOrder == id then t.quantity else 0) + (if t.takerOrder == id then t.quantity else 0)
  }

  /** Each order's filled quantity is what the log says was traded of it. */
  ghost predicate FilledExact(s: State) {
    forall id :: id in s.orders ==> s.orders[id].filled == SeqSum(s.trades, FilledIn(id))
  }

  /** A trade joins two orders of different wallets and opposite sides at the maker's price, within the
      taker's limit, for a positive quantity and the pair's fees. */
  predicate TradeValid(pair: Pair, orders: Orders, t: Trade) {
    && t.makerOrder in orders && t.takerOrder in orders
    && var m, k := orders[t.makerOrder], orders[t.takerOrder];
    && t.makerWallet == m.wallet && t.takerWallet == k.wallet && m.wallet != k.wallet
    && t.side == k.side == Opposite(m.side)
    && t.price == m.price && !Beyond(k, m)
    && t.quantity > 0
    && t.makerFee == FeeOn(t.price, t.quantity, pair.makerFee)
    && t.takerFee == FeeOn(t.price, t.quantity, pair.takerFee)
  }

  ghost predicate TradesValid(pair: Pair, s: State) {
    forall t :: t in s.trades ==> TradeValid(pair, s.orders, t)
  }

  function UserOf(ws: Wallets, w: WalletId): Option<UserId> {
    if w in ws then Some(ws[w].user) else None
  }

  /** On how many sides of trade `t` user `u` stands: the same user may own both wallets. */
  function Sides(ws: Wallets, t: Trade, u: UserId): int {
    (if UserOf(ws, t.makerWallet) == Some(u) then 1 else 0) + (if UserOf(ws, t.takerWallet) == Some(u) then 1 else 0)
  }

  /** What trade `t` adds to the volume of user `u` on `day`: its value, once as maker and once as taker. */
  function VolumeBy(ws: Wallets, u: UserId, day: Day): Trade -> int {
    (t: Trade) => if t.day == day then Value(t) * Sides(ws, t, u) else 0
  }

  /** The volume table is what the log says each user traded each day. */
  ghost predicate VolumesExact(s: State) {
    forall u, day :: VolumeOf(s.volumes, u, day) == SeqSum(s.trades, VolumeBy(s.wallets, u, day))
  }

  // ---- One fill ----

  lemma FillKeepsFilled(pair: Pair, s: State, taker: OrderId, f: Fill, at: Tick)
    requires Linked(s) && FillOk(s.orders, taker, f) && FilledExact(s)
    ensures FilledExact(ApplyFill(pair, s, taker, f, at))
  {
    var t := TradeOf(pair, s, taker, f, at);
    var r := ApplyFill(pair, s, taker, f, at);
    forall id | id in r.orders
      ensures r.orders[id].filled == SeqSum(r.trades, FilledIn(id))
    {
      SeqSumAppend(s.trades, t, FilledIn(id));
    }
  }

  lemma FillKeepsValid(pair: Pair, s: State, taker: OrderId, f: Fill, at: Tick)
    requires Linked(s) && FillOk(s.orders, taker, f) && TradesValid(pair, s)
    ensures TradesValid(pair, ApplyFill(pair, s, taker, f, at))
  {
    var t := TradeOf(pair, s, taker, f, at);
    var r := ApplyFill(pair, s, taker, f, at);
    FillKeepsTerms(s.orders, taker, f);
    assert r.orders == OrdersAfter(s.orders, taker, f);
    forall x | x in r.trades ensures TradeValid(pair, r.orders, x) {
      if x == t {
        assert TradeValid(pair, s.orders, t);
      } else {
        assert x in s.trades;
      }
    }
  }

  lemma FillKeepsVolume(pair: Pair, s: State, taker: OrderId, f: Fill, at: Tick, u: UserId, day: Day)
    requires pair.base != pair.quote
    requires Linked(s) && FillOk(s.orders, taker, f)
    requires VolumeOf(s.volumes, u, day) == SeqSum(s.trades, VolumeBy(s.wallets, u, day))
    ensures var r := ApplyFill(pair, s, taker, f, at);
            VolumeOf(r.volumes, u, day) == SeqSum(r.trades, VolumeBy(r.wallets, u, day))
  {
    FillMoves(pair, s, taker, f, at);
    var t := TradeOf(pair, s, taker, f, at);
    var r := ApplyFill(pair, s, taker, f, at);
    var g, g' := VolumeBy(s.wallets, u, day), VolumeBy(r.wallets, u, day);
    forall x ensures g'(x) == g(x) {
      assert UserOf(r.wallets, x.makerWallet) == UserOf(s.wallets, x.makerWallet);
      assert UserOf(r.wallets, x.takerWallet) == UserOf(s.wallets, x.takerWallet);
    }
    SeqSumSame(r.trades, g', g);
    SeqSumAppend(s.trades, t, g);
    FillVolume(s, t, u, day);
    assert r.volumes == VolumesAfter(s, t);
  }

  lemma FillVolume(s: State, t: Trade, u: UserId, day: Day)
    requires t.makerWallet in s.wallets && t.takerWallet in s.wallets
    ensures VolumeOf(VolumesAfter(s, t), u, day) == VolumeOf(s.volumes, u, day) + VolumeBy(s.wallets, u, day)(t)
  {
  }
}
