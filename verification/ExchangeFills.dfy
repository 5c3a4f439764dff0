/** What every single fill of a match meets, and what a match does to the orders and the books. */
module ExchangeFills {
  import opened Amounts
  import opened ExchangeTypes
  import opened OrderBook
  import opened Matching
  import opened ExchangeState

  /** A fill between two active orders of different wallets on opposite sides, at the maker's price, for
      units both have left, and within the taker's limit. */
  predicate FillOk(orders: Orders, taker: OrderId, f: Fill) {
    && taker in orders && f.maker in orders && taker != f.maker
    && var t, m := orders[taker], orders[f.maker];
    && t.side == Opposite(m.side) && t.Active() && m.Active()
    && Eligible(t, m)
    && f.price == m.price
    && 0 < f.qty <= m.remaining && f.qty <= t.remaining
  }

  /** Each fill is in order after the fills before it. */
  ghost predicate FillsOk(orders: Orders, taker: OrderId, fills: seq<Fill>)
    decreases |fills|
  {
    fills == [] ||
    (FillOk(orders, taker, fills[0]) && FillsOk(OrdersAfter(orders, taker, fills[0]), taker, fills[1..]))
  }

  lemma TakerNotFacing(orders: Orders, taker: OrderId, book: seq<OrderId>)
    requires taker in orders && Facing(orders, orders[taker], book)
    ensures taker !in book
  {
  }

  /** Skipping an order of the taker's own wallet. */
  lemma SkipStep(orders: Orders, taker: OrderId, book: seq<OrderId>)
    requires taker in orders && Facing(orders, orders[taker], book) && book != []
    requires var t := orders[taker];
             t.remaining > 0 && !Beyond(t, orders[book[0]]) && orders[book[0]].wallet == t.wallet
    ensures var t := orders[taker];
            && Facing(orders, t, book[1..])
            && Plan(orders, t, t.remaining, book) == Plan(orders, t, t.remaining, book[1..])
            && Rest(orders, t, t.remaining, book) == [book[0]] + Rest(orders, t, t.remaining, book[1..])
  {
    FacingTail(orders, orders[taker], book);
  }

  /** The fill of `taker` with one maker: at its price, for all that both have left. */
  function FillWith(orders: Orders, taker: OrderId, maker: OrderId): Fill
    requires taker in orders && maker in orders
  {
    Fill(maker, orders[maker].price, Min(orders[taker].remaining, orders[maker].remaining))
  }

  /** The fill of the order at the head of the book. */
  function HeadFill(orders: Orders, taker: OrderId, book: seq<OrderId>): Fill
    requires taker in orders && Known(orders, book) && book != []
  {
    FillWith(orders, taker, book[0])
  }

  /** The taker can trade with the head of the book. */
  predicate CanTake(orders: Orders, taker: OrderId, book: seq<OrderId>) {
    && taker in orders && Known(orders, book) && book != []
    && orders[taker].Active() && orders[taker].remaining > 0
    && Eligible(orders[taker], orders[book[0]])
  }

  lemma FillStepOrders(orders: Orders, taker: OrderId, book: seq<OrderId>)
    requires CanTake(orders, taker, book) && Facing(orders, orders[taker], book)
    ensures var f := HeadFill(orders, taker, book);
            var orders' := OrdersAfter(orders, taker, f);
            && FillOk(orders, taker, f)
            && orders'[taker] == orders[taker].Take(f.qty)
            && orders'[f.maker] == MakerAfter(orders[f.maker], f.qty)
            && (forall id :: id in book[1..] ==> id in orders && id in orders' && orders'[id] == orders[id])
            && Facing(orders', orders'[taker], book[1..])
  {
    FacingTail(orders, orders[taker], book);
    TakerNotFacing(orders, taker, book);
  }

  /** Filling the order at the head of the book and going on with the orders that result. */
  lemma FillStep(orders: Orders, taker: OrderId, book: seq<OrderId>)
    requires CanTake(orders, taker, book) && Facing(orders, orders[taker], book)
    ensures var t, f := orders[taker], HeadFill(orders, taker, book);
            var orders' := OrdersAfter(orders, taker, f);
            var t' := orders'[taker];
            && FillOk(orders, taker, f)
            && Facing(orders', t', book[1..])
            && Plan(orders, t, t.remaining, book) == [f] + Plan(orders', t', t'.remaining, book[1..])
            && Rest(orders, t, t.remaining, book)
               == (if orders'[f.maker].remaining == 0 then [] else [book[0]])
                  + Rest(orders', t', t'.remaining, book[1..])
  {
    FillStepOrders(orders, taker, book);
    var t, f := orders[taker], HeadFill(orders, taker, book);
    var orders' := OrdersAfter(orders, taker, f);
    PlanFrame(orders, orders', t, orders'[taker], t.remaining - f.qty, book[1..]);
  }

  /** Every fill of the plan is in order when its turn comes. */
  lemma {:induction false} PlanIsOk(orders: Orders, taker: OrderId, book: seq<OrderId>)
    requires taker in orders && orders[taker].Active()
    requires Facing(orders, orders[taker], book)
    ensures FillsOk(orders, taker, Plan(orders, orders[taker], orders[taker].remaining, book))
    decreases |book|
  {
    var t := orders[taker];
    if book != [] && t.remaining > 0 && !Beyond(t, orders[book[0]]) {
      if orders[book[0]].wallet == t.wallet {
        SkipStep(orders, taker, book);
        PlanIsOk(orders, taker, book[1..]);
      } else {
        FillStep(orders, taker, book);
        PlanIsOk(OrdersAfter(orders, taker, HeadFill(orders, taker, book)), taker, book[1..]);
      }
    }
  }

  // ---- A match as a whole ----

  /** The state in which `taker` is about to be matched. */
  ghost predicate Ready(s: State, taker: OrderId) {
    && Linked(s)
    && taker in s.orders
    && s.orders[taker].Active()
    && Facing(s.orders, s.orders[taker], s.Book(Opposite(s.orders[taker].side)))
  }

  lemma MatchFillsOk(s: State, taker: OrderId)
    requires Ready(s, taker)
    ensures FillsOk(s.orders, taker, FillsOf(s, taker))
  {
    PlanIsOk(s.orders, taker, s.Book(Opposite(s.orders[taker].side)));
  }

  /** Order `o'` is `o` after `q` of its units were filled as a maker. */
  predicate MadeFrom(o: Order, o': Order, q: int) {
    && q >= 0
    && o' == o.Take(q).(status := o'.status)
    && (q == 0 ==> o' == o)
    && (q > 0 ==> o.Active() && o'.status == if o'.remaining == 0 then Filled else Partial)
  }

  /** Only the taker and the makers of the fills are touched; each loses exactly what was filled from it. */
  ghost predicate FillsEffect(s: State, taker: OrderId, fills: seq<Fill>, r: State)
    requires taker in s.orders
  {
    && r.orders.Keys == s.orders.Keys
    && Qty(fills) >= 0
    && r.orders[taker] == s.orders[taker].Take(Qty(fills))
    && (forall id :: id in s.orders && id != taker ==> MadeFrom(s.orders[id], r.orders[id], FilledFrom(fills, id)))
    && r.bids == s.bids && r.asks == s.asks && r.orderSeq == s.orderSeq && r.walletSeq == s.walletSeq
    && |r.trades| == |s.trades| + |fills| && r.tradeSeq == s.tradeSeq + |fills|
  }

  lemma FillEffect(pair: Pair, s: State, taker: OrderId, f: Fill, at: Tick)
    requires Linked(s) && FillOk(s.orders, taker, f)
    ensures var r := ApplyFill(pair, s, taker, f, at);
            && r.orders == OrdersAfter(s.orders, taker, f)
            && r.bids == s.bids && r.asks == s.asks && r.orderSeq == s.orderSeq && r.walletSeq == s.walletSeq
            && |r.trades| == |s.trades| + 1 && r.tradeSeq == s.tradeSeq + 1
  {
  }

  lemma MadeFromTwice(o: Order, o1: Order, o2: Order, q: int, p: int)
    requires MadeFrom(o, o1, q) && MadeFrom(o1, o2, p)
    ensures MadeFrom(o, o2, q + p)
  {
  }

  lemma {:induction false} FillsCounters(pair: Pair, s: State, taker: OrderId, fills: seq<Fill>, at: Tick)
    requires Linked(s) && taker in s.orders
    requires forall f :: f in fills ==> f.maker in s.orders
    ensures var r := ApplyFills(pair, s, taker, fills, at);
            && r.bids == s.bids && r.asks == s.asks && r.orderSeq == s.orderSeq && r.walletSeq == s.walletSeq
            && |r.trades| == |s.trades| + |fills| && r.tradeSeq == s.tradeSeq + |fills|
    decreases |fills|
  {
    if fills != [] {
      FillsCounters(pair, ApplyFill(pair, s, taker, fills[0], at), taker, fills[1..], at);
    }
  }

  /** The orders after several fills. */
  function OrdersAfterAll(orders: Orders, taker: OrderId, fills: seq<Fill>): (r: Orders)
    requires taker in orders && forall f :: f in fills ==> f.maker in orders
    ensures r.Keys == orders.Keys
    decreases |fills|
  {
    if fills == [] then orders else OrdersAfterAll(OrdersAfter(orders, taker, fills[0]), taker, fills[1..])
  }

  lemma {:induction false} ApplyFillsOrders(pair: Pair, s: State, taker: OrderId, fills: seq<Fill>, at: Tick)
    requires Linked(s) && taker in s.orders && forall f :: f in fills ==> f.maker in s.orders
    ensures ApplyFills(pair, s, taker, fills, at).orders == OrdersAfterAll(s.orders, taker, fills)
    decreases |fills|
  {
    if fills != [] {
      ApplyFillsOrders(pair, ApplyFill(pair, s, taker, fills[0], at), taker, fills[1..], at);
    }
  }

  lemma FillOrder(orders: Orders, taker: OrderId, f: Fill, id: OrderId)
    requires FillOk(orders, taker, f) && id in orders && id != taker
    ensures MadeFrom(orders[id], OrdersAfter(orders, taker, f)[id], if f.maker == id then f.qty else 0)
  {
  }

  lemma {:induction false} FillsOrder(orders: Orders, taker: OrderId, fills: seq<Fill>, id: OrderId)
    requires taker in orders && FillsOk(orders, taker, fills)
    requires forall f :: f in fills ==> f.maker in orders
    requires id in orders && id != taker
    ensures MadeFrom(orders[id], OrdersAfterAll(orders, taker, fills)[id], FilledFrom(fills, id))
    decreases |fills|
  {
    if fills != [] {
      var next := OrdersAfter(orders, taker, fills[0]);
      FillsOrder(next, taker, fills[1..], id);
      FillOrder(orders, taker, fills[0], id);
      MadeFromTwice(orders[id], next[id], OrdersAfterAll(next, taker, fills[1..])[id],
                    if fills[0].maker == id then fills[0].qty else 0, FilledFrom(fills[1..], id));
    }
  }

  lemma {:induction false} FillsTakerOrder(orders: Orders, taker: OrderId, fills: seq<Fill>)
    requires taker in orders && FillsOk(orders, taker, fills)
    requires forall f :: f in fills ==> f.maker in orders
    ensures OrdersAfterAll(orders, taker, fills)[taker] == orders[taker].Take(Qty(fills))
    ensures Qty(fills) >= 0
    decreases |fills|
  {
    if fills != [] {
      FillsTakerOrder(OrdersAfter(orders, taker, fills[0]), taker, fills[1..]);
    }
  }

  lemma FillsTaker(pair: Pair, s: State, taker: OrderId, fills: seq<Fill>, at: Tick)
    requires Linked(s) && taker in s.orders && FillsOk(s.orders, taker, fills)
    requires forall f :: f in fills ==> f.maker in s.orders
    ensures ApplyFills(pair, s, taker, fills, at).orders[taker] == s.orders[taker].Take(Qty(fills))
    ensures Qty(fills) >= 0
  {
    ApplyFillsOrders(pair, s, taker, fills, at);
    FillsTakerOrder(s.orders, taker, fills);
  }

  lemma FillsOrders(pair: Pair, s: State, taker: OrderId, fills: seq<Fill>, at: Tick)
    requires Linked(s) && taker in s.orders && FillsOk(s.orders, taker, fills)
    requires forall f :: f in fills ==> f.maker in s.orders
    ensures FillsEffect(s, taker, fills, ApplyFills(pair, s, taker, fills, at))
  {
    FillsCounters(pair, s, taker, fills, at);
    FillsTaker(pair, s, taker, fills, at);
    ApplyFillsOrders(pair, s, taker, fills, at);
    forall id | id in s.orders && id != taker
      ensures MadeFrom(s.orders[id], ApplyFills(pair, s, taker, fills, at).orders[id], FilledFrom(fills, id))
    {
      FillsOrder(s.orders, taker, fills, id);
    }
  }
}
