/** What one placement does to its wallet, computed from the book it meets: the fills, the balances, the lock,
    the volume of the day. A caller can work these out before placing the order. */
module ExchangePlacements {
  import opened Amounts
  import opened Sums
  import opened ExchangeTypes
  import opened OrderBook
  import opened Matching
  import opened ExchangeState
  import opened ExchangeFills
  import opened ExchangeWellFormed
  import opened ExchangeMoney
  import opened ExchangeLocks
  import opened ExchangeLedger
  import opened ExchangeInvariants
  import opened ExchangeTrades

  /** The fills an order placed as `a` meets in the opposite book. */
  function BookFills(s: State, a: PlaceArgs): (fills: seq<Fill>)
    requires Known(s.orders, s.Book(Opposite(a.side)))
    ensures forall f :: f in fills ==> f.maker in s.orders
  {
    PlanMakersKnown(s.orders, NewOrder(a), a.quantity, s.Book(Opposite(a.side)));
    Plan(s.orders, NewOrder(a), a.quantity, s.Book(Opposite(a.side)))
  }

  lemma BooksKnown(s: State)
    requires WellFormed(s)
    ensures Known(s.orders, s.bids) && Known(s.orders, s.asks)
  {
    assert BookOk(s, Buy) && BookOk(s, Sell);
  }

  /** Admission changes nothing the matcher looks at. */
  lemma AdmittedFills(pair: Pair, s0: State, a: PlaceArgs, s1: State)
    requires WellFormed(s0) && Admitted(pair, s0, a, s1)
    ensures Known(s0.orders, s0.Book(Opposite(a.side)))
    ensures FillsOf(s1, s1.orderSeq) == BookFills(s0, a)
  {
    BooksKnown(s0);
    var book := s0.Book(Opposite(a.side));
    assert s1.orderSeq !in s0.orders;
    PlanFrame(s0.orders, s1.orders, NewOrder(a), NewOrder(a), a.quantity, book);
  }

  // ---- The lock ----

  /** What a buy order at `price` gives up of its cover for `q` of its `left` units, less what they cost. */
  function CoverGain(price: int, left: int, q: int, cost: int): int {
    QuoteValue(price, left) - QuoteValue(price, left - q) - cost
  }

  /** What fill `f` takes off the cover of wallet `w`. */
  function CoverTaken(o: Order, f: Fill, w: WalletId): int {
    if o.wallet == w then QuoteValue(o.price, o.remaining) - QuoteValue(o.price, o.remaining - f.qty) else 0
  }

  function LockUsed(o: Order, f: Fill, w: WalletId): int {
    if o.wallet == w then QuoteValue(f.price, f.qty) else 0
  }

  lemma NothingLeft(price: int)
    ensures QuoteValue(price, 0) == 0
  {
  }

  lemma BuyTaken(o: Order, o': Order, f: Fill, w: WalletId)
    requires o.side == Buy && o.Active() && o' == o.Take(f.qty).(status := o'.status)
    requires o'.Active() || o'.remaining == 0
    ensures BuyCover(w)(o) - BuyCover(w)(o') == CoverTaken(o, f, w)
  {
    NothingLeft(o.price);
  }

  lemma FillCover(orders: Orders, taker: OrderId, f: Fill, w: WalletId)
    requires FillOk(orders, taker, f)
    ensures Sum(OrdersAfter(orders, taker, f), BuyCover(w))
         == Sum(orders, BuyCover(w)) - CoverTaken(Buying(orders, taker, f), f, w)
  {
    var t, m := orders[taker], orders[f.maker];
    var t', m' := t.Take(f.qty), MakerAfter(m, f.qty);
    FillSum(orders, taker, f, BuyCover(w));
    if t.side == Buy {
      BuyTaken(t, t', f, w);
      assert BuyCover(w)(m) == BuyCover(w)(m') == 0;
    } else {
      BuyTaken(m, m', f, w);
      assert BuyCover(w)(t) == BuyCover(w)(t') == 0;
    }
  }

  lemma FillLock(pair: Pair, s: State, taker: OrderId, f: Fill, at: Tick, w: WalletId)
    requires pair.base != pair.quote
    requires Linked(s) && FillOk(s.orders, taker, f) && w in s.wallets
    ensures ApplyFill(pair, s, taker, f, at).wallets[w].Locked(pair.quote)
         == s.wallets[w].Locked(pair.quote) - LockUsed(Buying(s.orders, taker, f), f, w)
  {
    FillQuoteLock(pair, s, taker, f, at, w);
  }

  /** One fill changes what a wallet holds beyond its cover by the gain of its buying order. */
  lemma FillSlack(pair: Pair, s: State, taker: OrderId, f: Fill, at: Tick, w: WalletId)
    requires pair.base != pair.quote
    requires Linked(s) && FillOk(s.orders, taker, f) && w in s.wallets
    ensures Slack(pair, ApplyFill(pair, s, taker, f, at), w)
         == Slack(pair, s, w)
            + CoverTaken(Buying(s.orders, taker, f), f, w) - LockUsed(Buying(s.orders, taker, f), f, w)
  {
    var r := ApplyFill(pair, s, taker, f, at);
    FillEffect(pair, s, taker, f, at);
    FillLock(pair, s, taker, f, at, w);
    FillCover(s.orders, taker, f, w);
    assert r.orders == OrdersAfter(s.orders, taker, f);
  }

  /** What the fills of a buying taker `o` leave wallet `w` beyond its cover. */
  function BuyerGain(o: Order, fills: seq<Fill>, w: WalletId): int {
    if o.wallet == w then CoverGain(o.price, o.remaining, Qty(fills), Cost(fills)) else 0
  }

  lemma BuyerGainStep(o: Order, fills: seq<Fill>, w: WalletId)
    requires fills != []
    ensures BuyerGain(o, fills, w)
         == CoverTaken(o, fills[0], w) - LockUsed(o, fills[0], w) + BuyerGain(o.Take(fills[0].qty), fills[1..], w)
  {
    assert o.remaining - Qty(fills) == o.remaining - fills[0].qty - Qty(fills[1..]);
  }

  /** A buying taker's fills give its wallet what they leave of its cover, and no other wallet anything. */
  lemma {:induction false} BuyerFillsSlack(pair: Pair, s: State, taker: OrderId, fills: seq<Fill>, at: Tick, w: WalletId)
    requires pair.base != pair.quote
    requires Linked(s) && taker in s.orders && FillsOk(s.orders, taker, fills)
    requires forall f :: f in fills ==> f.maker in s.orders
    requires w in s.wallets && s.orders[taker].side == Buy
    ensures Slack(pair, ApplyFills(pair, s, taker, fills, at), w)
         == Slack(pair, s, w) + BuyerGain(s.orders[taker], fills, w)
    decreases |fills|
  {
    if fills != [] {
      var s1 := ApplyFill(pair, s, taker, fills[0], at);
      FillEffect(pair, s, taker, fills[0], at);
      assert s1.orders[taker] == s.orders[taker].Take(fills[0].qty);
      FillSlack(pair, s, taker, fills[0], at, w);
      BuyerFillsSlack(pair, s1, taker, fills[1..], at, w);
      BuyerGainStep(s.orders[taker], fills, w);
    } else {
      NoFillsNoGain(s.orders[taker], w);
    }
  }

  lemma NoFillsNoGain(o: Order, w: WalletId)
    ensures BuyerGain(o, [], w) == 0
  {
  }

  /** Filling part of a buy at its own price leaves at most one unit of rounding behind. */
  lemma OwnPriceGain(price: int, left: int, q: int)
    requires price >= 0 && 0 <= q <= left
    ensures 0 <= CoverGain(price, left, q, QuoteValue(price, q)) <= 1
  {
    MulNonNegative(price, q);
    MulNonNegative(price, left - q);
    QuoSplit(price * q, price * (left - q), MICRO);
    assert price * q + price * (left - q) == price * left;
  }

  /** No buy of wallet `w` names a negative price. */
  ghost predicate BuyPrices(orders: Orders, w: WalletId) {
    forall id :: id in orders && orders[id].wallet == w && orders[id].side == Buy ==> orders[id].price >= 0
  }

  lemma SellerFillGain(o: Order, f: Fill, w: WalletId)
    requires (o.wallet == w ==> o.price >= 0) && f.price == o.price && 0 <= f.qty <= o.remaining
    ensures 0 <= CoverTaken(o, f, w) - LockUsed(o, f, w) <= 1
  {
    if o.wallet == w { OwnPriceGain(o.price, o.remaining, f.qty); }
  }

  /** A selling taker's fills take nothing beyond the cover from a wallet without negative buy prices, and leave it
      at most one unit a fill. */
  lemma {:induction false} SellerFillsSlack(pair: Pair, s: State, taker: OrderId, fills: seq<Fill>, at: Tick, w: WalletId)
    requires pair.base != pair.quote
    requires Linked(s) && taker in s.orders && FillsOk(s.orders, taker, fills)
    requires forall f :: f in fills ==> f.maker in s.orders
    requires w in s.wallets && s.orders[taker].side == Sell && BuyPrices(s.orders, w)
    ensures Slack(pair, s, w)
         <= Slack(pair, ApplyFills(pair, s, taker, fills, at), w)
         <= Slack(pair, s, w) + |fills|
    decreases |fills|
  {
    if fills != [] {
      FillEffect(pair, s, taker, fills[0], at);
      FillKeepsTerms(s.orders, taker, fills[0]);
      FillSlack(pair, s, taker, fills[0], at, w);
      SellerFillGain(s.orders[fills[0].maker], fills[0], w);
      SellerFillsSlack(pair, ApplyFill(pair, s, taker, fills[0], at), taker, fills[1..], at, w);
    }
  }

  lemma RestatedSlack(pair: Pair, s: State, x: OrderId, r: State, w: WalletId)
    requires Restated(s, x, r) && w in s.wallets
    ensures Slack(pair, r, w) == Slack(pair, s, w)
  {
    FinishKeepsSums(s.orders, x, BuyCover(w));
  }

  lemma RelockedSlack(pair: Pair, s: State, r: State, id: OrderId, o: Order, d: Denom, x: int, w: WalletId)
    requires Relocked(s, r, id, o, d, x) && w in s.wallets
    requires BuyCover(w)(o) - Share(s.orders, id, BuyCover(w)) == if w == o.wallet && d == pair.quote then x else 0
    ensures w in r.wallets && Slack(pair, r, w) == Slack(pair, s, w)
  {
    SumPut(s.orders, id, o, BuyCover(w));
  }

  lemma NewCover(pair: Pair, a: PlaceArgs, w: WalletId)
    requires pair.base != pair.quote
    ensures BuyCover(w)(NewOrder(a))
         == if w == a.wallet && LockDenom(pair, a.side) == pair.quote then LockAmount(a.side, a.price, a.quantity) else 0
  {
  }

  lemma AdmitSlack(pair: Pair, s: State, a: PlaceArgs, w: WalletId)
    requires pair.base != pair.quote && WellFormed(s) && a.wallet in s.wallets && w in s.wallets
    ensures w in Admit(pair, s, a).wallets && Slack(pair, Admit(pair, s, a), w) == Slack(pair, s, w)
  {
    AdmitRelocks(pair, s, a);
    assert s.orderSeq + 1 !in s.orders;
    NewCover(pair, a, w);
    RelockedSlack(pair, s, Admit(pair, s, a), s.orderSeq + 1, NewOrder(a),
                  LockDenom(pair, a.side), LockAmount(a.side, a.price, a.quantity), w);
  }

  /** How `slack` moves when order `o` meets `fills`: exactly for a buy, within one unit a fill for a sell. */
  predicate SlackMoves(o: Order, fills: seq<Fill>, sane: bool, w: WalletId, slack: int, slack': int) {
    && (o.side == Buy ==> slack' == slack + BuyerGain(o, fills, w))
    && (o.side == Sell && sane ==> slack <= slack' <= slack + |fills|)
  }

  lemma MatchSlack(pair: Pair, s: State, x: OrderId, at: Tick, w: WalletId)
    requires pair.base != pair.quote && Ready(s, x) && s.orders[x].status == Open && w in s.wallets
    ensures w in Match(pair, s, x, at).wallets
    ensures SlackMoves(s.orders[x], FillsOf(s, x), BuyPrices(s.orders, w), w,
                       Slack(pair, s, w), Slack(pair, Match(pair, s, x, at), w))
  {
    var fills := FillsOf(s, x);
    MatchRestates(pair, s, x, at);
    RestatedSlack(pair, ApplyFills(pair, s, x, fills, at), x, Match(pair, s, x, at), w);
    if s.orders[x].side == Buy {
      BuyerFillsSlack(pair, s, x, fills, at, w);
    } else if BuyPrices(s.orders, w) {
      SellerFillsSlack(pair, s, x, fills, at, w);
    }
  }

  lemma AdmittedSlack(pair: Pair, s0: State, a: PlaceArgs, at: Tick, s1: State, w: WalletId)
    requires pair.base != pair.quote && WellFormed(s0) && Admitted(pair, s0, a, s1) && w in s0.wallets
    ensures w in Match(pair, s1, s1.orderSeq, at).wallets
    ensures SlackMoves(NewOrder(a), FillsOf(s1, s1.orderSeq), BuyPrices(s1.orders, w), w,
                       Slack(pair, s0, w), Slack(pair, Match(pair, s1, s1.orderSeq, at), w))
  {
    AdmitSlack(pair, s0, a, w);
    MatchSlack(pair, s1, s1.orderSeq, at, w);
  }

  lemma SameSlack(pair: Pair, m: State, s': State, w: WalletId)
    requires w in m.wallets && s'.wallets == m.wallets && s'.orders == m.orders
    ensures Slack(pair, s', w) == Slack(pair, m, w)
  {
  }

  lemma AdmitPrices(pair: Pair, s: State, a: PlaceArgs, w: WalletId)
    requires a.wallet in s.wallets && a.side == Sell && BuyPrices(s.orders, w)
    ensures BuyPrices(Admit(pair, s, a).orders, w)
  {
  }

  // ---- Everything at once: a placement is admission and a match ----

  /** Only the books may differ. */
  ghost predicate BooksAside(m: State, s': State) {
    && s'.wallets == m.wallets && s'.orders == m.orders && s'.trades == m.trades && s'.volumes == m.volumes
    && s'.orderSeq == m.orderSeq
  }

  /** Only the volume table may differ, and no volume in it. */
  ghost predicate VolumesAside(s: State, s0: State) {
    && s0.wallets == s.wallets && s0.orders == s.orders && s0.trades == s.trades
    && s0.bids == s.bids && s0.asks == s.asks && s0.orderSeq == s.orderSeq && s0.tradeSeq == s.tradeSeq
    && forall u, day :: VolumeOf(s0.volumes, u, day) == VolumeOf(s.volumes, u, day)
  }

  lemma TouchedAside(env: Env, s: State, w: Wallet, day: Day)
    ensures VolumesAside(s, Touched(env, s, w, day))
  {
  }

  lemma SameBookFills(s: State, s0: State, a: PlaceArgs)
    requires VolumesAside(s, s0) && Known(s.orders, s.Book(Opposite(a.side)))
    ensures Known(s0.orders, s0.Book(Opposite(a.side))) && BookFills(s0, a) == BookFills(s, a)
  {
  }

  /** The states of a placement, with the fills read off the book it met. */
  lemma PlaceStages(env: Env, s: State, a: PlaceArgs, at: Tick, s': State, r: PlaceResult)
    returns (s0: State, s1: State)
    requires WellFormed(s) && env.Sound() && Place(env, s, a, at, s', r) && r.Placed?
    ensures Known(s.orders, s.Book(Opposite(a.side)))
    ensures WellFormed(s0) && VolumesAside(s, s0)
    ensures Admitted(env.pair, s0, a, s1) && FillsOf(s1, s1.orderSeq) == BookFills(s, a)
    ensures BooksAside(Match(env.pair, s1, s1.orderSeq, at), s')
    ensures r.id == s1.orderSeq && |s.trades| <= |s'.trades| && r.trades == s'.trades[|s.trades|..]
  {
    BooksKnown(s);
    s0 := PlaceIsAccepted(env, s, a, at, s', r);
    TouchedAside(env, s, s.wallets[a.wallet], at.day);
    SameBookFills(s, s0, a);
    s1 := ExecuteAside(env.pair, s0, a, at, s', r);
    AdmittedFills(env.pair, s0, a, s1);
  }

  lemma ExecuteAside(pair: Pair, s0: State, a: PlaceArgs, at: Tick, s': State, r: PlaceResult) returns (s1: State)
    requires WellFormed(s0) && a.wallet in s0.wallets && Execute(pair, s0, a, at, s', r)
    requires a.quantity > 0 && (a.typ == Limit ==> a.price > 0)
    ensures Admitted(pair, s0, a, s1)
    ensures BooksAside(Match(pair, s1, s1.orderSeq, at), s')
    ensures r.id == s1.orderSeq && |s0.trades| <= |s'.trades| && r.trades == s'.trades[|s0.trades|..]
  {
    var s2;
    s1, s2 := ExecuteStages(pair, s0, a, at, s', r);
    RestedAside(s2, s1.orderSeq, s');
  }

  /** The lock after a placement. A buy adds to what its wallet holds beyond its cover what its fills leave of
      their cover, which is negative when they cost more, and leaves every other wallet's as it was; so the lock
      covers the wallet's active buys afterwards exactly when this does not take it below zero. A sell takes
      nothing from a wallet whose buys name no negative price, and leaves it at most one unit of rounding a fill. */
  lemma PlacementSlack(env: Env, s: State, a: PlaceArgs, at: Tick, s': State, r: PlaceResult, w: WalletId)
    requires WellFormed(s) && env.Sound() && Place(env, s, a, at, s', r) && r.Placed? && w in s.wallets
    ensures Known(s.orders, s.Book(Opposite(a.side))) && w in s'.wallets
    ensures SlackMoves(NewOrder(a), BookFills(s, a), BuyPrices(s.orders, w), w,
                       Slack(env.pair, s, w), Slack(env.pair, s', w))
    ensures a.side == Buy ==>
              (s'.wallets[w].Locked(env.pair.quote) >= Sum(s'.orders, BuyCover(w))
               <==> Slack(env.pair, s, w) + BuyerGain(NewOrder(a), BookFills(s, a), w) >= 0)
  {
    var s0, s1 := PlaceStages(env, s, a, at, s', r);
    AdmittedSlack(env.pair, s0, a, at, s1, w);
    SameSlack(env.pair, Match(env.pair, s1, s1.orderSeq, at), s', w);
    SameSlack(env.pair, s, s0, w);
    if a.side == Sell && BuyPrices(s.orders, w) { AdmitPrices(env.pair, s0, a, w); }
  }

  // ---- The balances ----

  /** What the fills of a taker move into its wallet. */
  function TakerGain(pair: Pair, side: Side, fills: seq<Fill>, d: Denom): int {
    if d == pair.base then (if side == Buy then Qty(fills) else -Qty(fills))
    else if d == pair.quote then (if side == Buy then -Cost(fills) else Cost(fills)) - Fees(fills, pair.takerFee)
    else 0
  }

  /** The share of one fill. */
  function FillGain(pair: Pair, side: Side, f: Fill, d: Denom): int {
    if d == pair.base then (if side == Buy then f.qty else -f.qty)
    else if d == pair.quote then
      (if side == Buy then -QuoteValue(f.price, f.qty) else QuoteValue(f.price, f.qty)) - FeeOn(f.price, f.qty, pair.takerFee)
    else 0
  }

  lemma TakerGainStep(pair: Pair, side: Side, fills: seq<Fill>, d: Denom)
    requires fills != []
    ensures TakerGain(pair, side, fills, d) == FillGain(pair, side, fills[0], d) + TakerGain(pair, side, fills[1..], d)
  {
  }

  lemma {:induction false} FillsBalance(pair: Pair, s: State, taker: OrderId, fills: seq<Fill>, at: Tick, d: Denom)
    requires pair.base != pair.quote
    requires Linked(s) && taker in s.orders && FillsOk(s.orders, taker, fills)
    requires forall f :: f in fills ==> f.maker in s.orders
    ensures var w := s.orders[taker].wallet;
            ApplyFills(pair, s, taker, fills, at).wallets[w].Balance(d)
            == s.wallets[w].Balance(d) + TakerGain(pair, s.orders[taker].side, fills, d)
    decreases |fills|
  {
    if fills != [] {
      FillEffect(pair, s, taker, fills[0], at);
      FillBalance(pair, s, taker, fills[0], at, d);
      FillsBalance(pair, ApplyFill(pair, s, taker, fills[0], at), taker, fills[1..], at, d);
      TakerGainStep(pair, s.orders[taker].side, fills, d);
    }
  }

  lemma TradeGain(pair: Pair, s: State, taker: OrderId, f: Fill, at: Tick, d: Denom)
    requires pair.base != pair.quote && Linked(s) && FillOk(s.orders, taker, f)
    ensures BalanceDelta(pair, TradeOf(pair, s, taker, f, at), s.orders[taker].wallet, d)
         == FillGain(pair, s.orders[taker].side, f, d)
  {
  }

  lemma FillBalance(pair: Pair, s: State, taker: OrderId, f: Fill, at: Tick, d: Denom)
    requires pair.base != pair.quote && Linked(s) && FillOk(s.orders, taker, f)
    ensures ApplyFill(pair, s, taker, f, at).wallets[s.orders[taker].wallet].Balance(d)
         == s.wallets[s.orders[taker].wallet].Balance(d) + FillGain(pair, s.orders[taker].side, f, d)
  {
    FillMoves(pair, s, taker, f, at);
    TradeGain(pair, s, taker, f, at, d);
    var t, w := TradeOf(pair, s, taker, f, at), s.orders[taker].wallet;
    assert ApplyFill(pair, s, taker, f, at).wallets[w].Balance(d) == s.wallets[w].Balance(d) + BalanceDelta(pair, t, w, d);
  }

  lemma AdmittedBalance(pair: Pair, s0: State, a: PlaceArgs, at: Tick, s1: State, d: Denom)
    requires pair.base != pair.quote && Admitted(pair, s0, a, s1)
    ensures Match(pair, s1, s1.orderSeq, at).wallets[a.wallet].Balance(d)
         == s0.wallets[a.wallet].Balance(d) + TakerGain(pair, a.side, FillsOf(s1, s1.orderSeq), d)
  {
    MatchRestates(pair, s1, s1.orderSeq, at);
    FillsBalance(pair, s1, s1.orderSeq, FillsOf(s1, s1.orderSeq), at, d);
  }

  /** The balances after a placement: a buyer pays the cost of the fills and the taker fees for the units, a
      seller gives the units for the value less the fees. So a placement leaves its wallet a non-negative quote
      balance exactly when the wallet had what the fills take. */
  lemma PlacementBalance(env: Env, s: State, a: PlaceArgs, at: Tick, s': State, r: PlaceResult, d: Denom)
    requires WellFormed(s) && env.Sound() && Place(env, s, a, at, s', r) && r.Placed?
    ensures Known(s.orders, s.Book(Opposite(a.side))) && a.wallet in s.wallets && a.wallet in s'.wallets
    ensures s'.wallets[a.wallet].Balance(d)
         == s.wallets[a.wallet].Balance(d) + TakerGain(env.pair, a.side, BookFills(s, a), d)
  {
    var s0, s1 := PlaceStages(env, s, a, at, s', r);
    AdmittedBalance(env.pair, s0, a, at, s1, d);
  }

  // ---- The free funds, of every wallet ----

  /** What a fill leaves free for the side that took part in it: a buyer the units less its fee, since its lock paid
      the value; a seller the value less its fee, since its lock gave the units. */
  function FreeShare(pair: Pair, side: Side, f: Fill, bps: int, d: Denom): int {
    if d == pair.base then (if side == Buy then f.qty else 0)
    else if d == pair.quote then (if side == Buy then 0 else QuoteValue(f.price, f.qty)) - FeeOn(f.price, f.qty, bps)
    else 0
  }

  function FreeOfFill(pair: Pair, side: Side, maker: WalletId, taker: WalletId, f: Fill, w: WalletId, d: Denom): int {
    (if w == taker then FreeShare(pair, side, f, pair.takerFee, d) else 0)
    + (if w == maker then FreeShare(pair, Opposite(side), f, pair.makerFee, d) else 0)
  }

  /** What the fills of a taker on `side` leave free for wallet `w`. */
  function FreeOfFills(pair: Pair, orders: Orders, side: Side, taker: WalletId, fills: seq<Fill>, w: WalletId, d: Denom): int
    requires forall f :: f in fills ==> f.maker in orders
  {
    if fills == [] then 0
    else
      FreeOfFill(pair, side, orders[fills[0].maker].wallet, taker, fills[0], w, d)
      + FreeOfFills(pair, orders, side, taker, fills[1..], w, d)
  }

  lemma {:induction false} FreeOfFillsFrame(pair: Pair, orders: Orders, orders': Orders, side: Side, taker: WalletId,
      fills: seq<Fill>, w: WalletId, d: Denom)
    requires forall f :: f in fills ==> f.maker in orders
    requires SameTerms(orders, orders')
    ensures FreeOfFills(pair, orders', side, taker, fills, w, d) == FreeOfFills(pair, orders, side, taker, fills, w, d)
  {
    if fills != [] { FreeOfFillsFrame(pair, orders, orders', side, taker, fills[1..], w, d); }
  }

  lemma TradeFree(pair: Pair, s: State, taker: OrderId, f: Fill, at: Tick, w: WalletId, d: Denom)
    requires pair.base != pair.quote && Linked(s) && FillOk(s.orders, taker, f)
    ensures var t := TradeOf(pair, s, taker, f, at);
            BalanceDelta(pair, t, w, d) - LockDelta(pair, t, w, d)
            == FreeOfFill(pair, s.orders[taker].side, s.orders[f.maker].wallet, s.orders[taker].wallet, f, w, d)
  {
  }

  /** One fill changes what a wallet has free by its share of the fill, and by nothing if it has none. */
  lemma FillFree(pair: Pair, s: State, taker: OrderId, f: Fill, at: Tick, w: WalletId, d: Denom)
    requires pair.base != pair.quote && Linked(s) && FillOk(s.orders, taker, f) && w in s.wallets
    ensures ApplyFill(pair, s, taker, f, at).wallets[w].Available(d)
         == s.wallets[w].Available(d)
            + FreeOfFill(pair, s.orders[taker].side, s.orders[f.maker].wallet, s.orders[taker].wallet, f, w, d)
  {
    FillMoves(pair, s, taker, f, at);
    TradeFree(pair, s, taker, f, at, w, d);
    MovedFree(pair, s.wallets, TradeOf(pair, s, taker, f, at), ApplyFill(pair, s, taker, f, at).wallets, w, d);
  }

  lemma MovedFree(pair: Pair, ws: Wallets, t: Trade, ws': Wallets, w: WalletId, d: Denom)
    requires Moved(pair, ws, t, ws') && w in ws
    ensures ws'[w].Available(d) == ws[w].Available(d) + BalanceDelta(pair, t, w, d) - LockDelta(pair, t, w, d)
  {
    assert ws'[w].Balance(d) == ws[w].Balance(d) + BalanceDelta(pair, t, w, d);
    assert ws'[w].Locked(d) == ws[w].Locked(d) + LockDelta(pair, t, w, d);
  }

  lemma {:induction false} FillsFree(pair: Pair, s: State, taker: OrderId, fills: seq<Fill>, at: Tick, w: WalletId, d: Denom)
    requires pair.base != pair.quote
    requires Linked(s) && taker in s.orders && FillsOk(s.orders, taker, fills) && w in s.wallets
    requires forall f :: f in fills ==> f.maker in s.orders
    ensures ApplyFills(pair, s, taker, fills, at).wallets[w].Available(d)
         == s.wallets[w].Available(d)
            + FreeOfFills(pair, s.orders, s.orders[taker].side, s.orders[taker].wallet, fills, w, d)
    decreases |fills|
  {
    if fills != [] {
      var o, s1 := s.orders[taker], ApplyFill(pair, s, taker, fills[0], at);
      FillEffect(pair, s, taker, fills[0], at);
      FillKeepsTerms(s.orders, taker, fills[0]);
      FillFree(pair, s, taker, fills[0], at, w, d);
      FillsFree(pair, s1, taker, fills[1..], at, w, d);
      FreeOfFillsFrame(pair, s.orders, s1.orders, o.side, o.wallet, fills[1..], w, d);
    }
  }

  lemma MatchFree(pair: Pair, s: State, x: OrderId, at: Tick, w: WalletId, d: Denom)
    requires pair.base != pair.quote && Ready(s, x) && s.orders[x].status == Open && w in s.wallets
    ensures w in Match(pair, s, x, at).wallets
    ensures Match(pair, s, x, at).wallets[w].Available(d)
         == s.wallets[w].Available(d)
            + FreeOfFills(pair, s.orders, s.orders[x].side, s.orders[x].wallet, FillsOf(s, x), w, d)
  {
    MatchRestates(pair, s, x, at);
    FillsFree(pair, s, x, FillsOf(s, x), at, w, d);
  }

  /** What placing an order takes from what its wallet has free. */
  function LockOf(pair: Pair, a: PlaceArgs, w: WalletId, d: Denom): int {
    if w == a.wallet && d == LockDenom(pair, a.side) then LockAmount(a.side, a.price, a.quantity) else 0
  }

  lemma AdmitFree(pair: Pair, s: State, a: PlaceArgs, w: WalletId, d: Denom)
    requires a.wallet in s.wallets && w in s.wallets
    ensures w in Admit(pair, s, a).wallets
    ensures Admit(pair, s, a).wallets[w].Available(d) == s.wallets[w].Available(d) - LockOf(pair, a, w, d)
  {
  }

  lemma AdmittedFree(pair: Pair, s0: State, a: PlaceArgs, at: Tick, s1: State, w: WalletId, d: Denom)
    requires pair.base != pair.quote && WellFormed(s0) && Admitted(pair, s0, a, s1) && w in s0.wallets
    requires Known(s0.orders, s0.Book(Opposite(a.side))) && FillsOf(s1, s1.orderSeq) == BookFills(s0, a)
    ensures w in Match(pair, s1, s1.orderSeq, at).wallets
    ensures Match(pair, s1, s1.orderSeq, at).wallets[w].Available(d)
         == s0.wallets[w].Available(d) - LockOf(pair, a, w, d)
            + FreeOfFills(pair, s0.orders, a.side, a.wallet, BookFills(s0, a), w, d)
  {
    AdmitFree(pair, s0, a, w, d);
    AdmitTerms(pair, s0, a);
    MatchFree(pair, s1, s1.orderSeq, at, w, d);
    FreeOfFillsFrame(pair, s0.orders, s1.orders, a.side, a.wallet, BookFills(s0, a), w, d);
  }

  /** What the placing wallet has free of the quote moves by the fees alone for a buy, by the cost less the fees for a
      sell: its fills are with other wallets. */
  lemma {:induction false} TakerFree(pair: Pair, orders: Orders, side: Side, taker: WalletId, fills: seq<Fill>)
    requires pair.base != pair.quote
    requires forall f :: f in fills ==> f.maker in orders && orders[f.maker].wallet != taker
    ensures FreeOfFills(pair, orders, side, taker, fills, taker, pair.quote)
         == (if side == Buy then 0 else Cost(fills)) - Fees(fills, pair.takerFee)
  {
    if fills != [] { TakerFree(pair, orders, side, taker, fills[1..]); }
  }

  /** An order fills with other wallets, at their price and within its own limit. */
  lemma BookFillsOthers(s: State, a: PlaceArgs)
    requires WellFormed(s)
    ensures Known(s.orders, s.Book(Opposite(a.side)))
    ensures forall f :: f in BookFills(s, a) ==>
              Eligible(NewOrder(a), s.orders[f.maker]) && f.price == s.orders[f.maker].price && f.qty > 0
    ensures a.quantity >= 0 ==> 0 <= Qty(BookFills(s, a)) <= a.quantity
  {
    BooksKnown(s);
    var book := s.Book(Opposite(a.side));
    assert BookOk(s, Opposite(a.side));
    forall id | id in book ensures s.orders[id].remaining > 0 {
      assert OrderOk(s.orders[id]);
    }
    PlanSound(s.orders, NewOrder(a), a.quantity, book);
  }

  /** The free funds of every wallet after a placement: the lock is taken, and each fill leaves both sides their
      share. So a buy leaves its wallet no negative free quote exactly when the wallet could pay, beside the lock, the
      fees of the fills it meets. */
  lemma PlacementFree(env: Env, s: State, a: PlaceArgs, at: Tick, s': State, r: PlaceResult, w: WalletId, d: Denom)
    requires WellFormed(s) && env.Sound() && Place(env, s, a, at, s', r) && r.Placed? && w in s.wallets
    ensures Known(s.orders, s.Book(Opposite(a.side))) && a.wallet in s.wallets && w in s'.wallets
    ensures s'.wallets[w].Available(d)
         == s.wallets[w].Available(d) - LockOf(env.pair, a, w, d)
            + FreeOfFills(env.pair, s.orders, a.side, a.wallet, BookFills(s, a), w, d)
  {
    var s0, s1 := PlaceStages(env, s, a, at, s', r);
    AdmittedFree(env.pair, s0, a, at, s1, w, d);
  }

  lemma PlacementFreeQuote(env: Env, s: State, a: PlaceArgs, at: Tick, s': State, r: PlaceResult)
    requires WellFormed(s) && env.Sound() && Place(env, s, a, at, s', r) && r.Placed?
    ensures Known(s.orders, s.Book(Opposite(a.side))) && a.wallet in s.wallets && a.wallet in s'.wallets
    ensures var fills := BookFills(s, a);
            var free, free' := s.wallets[a.wallet].Available(env.pair.quote), s'.wallets[a.wallet].Available(env.pair.quote);
            && (a.side == Buy ==>
                  && free' == free - QuoteValue(a.price, a.quantity) - Fees(fills, env.pair.takerFee)
                  && (free' >= 0 <==> free >= QuoteValue(a.price, a.quantity) + Fees(fills, env.pair.takerFee)))
            && (a.side == Sell ==>
                  && free' == free + Cost(fills) - Fees(fills, env.pair.takerFee)
                  && (free' >= 0 <==> free >= Fees(fills, env.pair.takerFee) - Cost(fills)))
  {
    var s0 := PlaceIsAccepted(env, s, a, at, s', r);
    PlacementFree(env, s, a, at, s', r, a.wallet, env.pair.quote);
    BookFillsOthers(s, a);
    TakerFree(env.pair, s.orders, a.side, a.wallet, BookFills(s, a));
  }

  // ---- The volume of the day ----

  /** Whether wallet `w` belongs to user `u`. */
  function Owned(ws: Wallets, w: WalletId, u: UserId): int { if UserOf(ws, w) == Some(u) then 1 else 0 }

  function VolumeOfFill(ws: Wallets, maker: WalletId, taker: WalletId, f: Fill, u: UserId): int {
    QuoteValue(f.price, f.qty) * (Owned(ws, maker, u) + Owned(ws, taker, u))
  }

  /** What the fills of a taker add to the day of user `u`: the value of each, once for the taker's side and once
      for the maker's. */
  function VolumeOfFills(ws: Wallets, orders: Orders, taker: WalletId, fills: seq<Fill>, u: UserId): int
    requires forall f :: f in fills ==> f.maker in orders
  {
    if fills == [] then 0
    else
      VolumeOfFill(ws, orders[fills[0].maker].wallet, taker, fills[0], u)
      + VolumeOfFills(ws, orders, taker, fills[1..], u)
  }

  lemma {:induction false} VolumeOfFillsFrame(ws: Wallets, orders: Orders, ws': Wallets, orders': Orders,
      taker: WalletId, fills: seq<Fill>, u: UserId)
    requires forall f :: f in fills ==> f.maker in orders
    requires SameTerms(orders, orders')
    requires forall w :: UserOf(ws', w) == UserOf(ws, w)
    ensures VolumeOfFills(ws', orders', taker, fills, u) == VolumeOfFills(ws, orders, taker, fills, u)
  {
    if fills != [] { VolumeOfFillsFrame(ws, orders, ws', orders', taker, fills[1..], u); }
  }

  /** One fill adds its value to the day of whoever stands on either side. */
  lemma FillAddsVolume(pair: Pair, s: State, taker: OrderId, f: Fill, at: Tick, u: UserId, day: Day)
    requires pair.base != pair.quote && Linked(s) && FillOk(s.orders, taker, f)
    ensures var r := ApplyFill(pair, s, taker, f, at);
            && VolumeOf(r.volumes, u, day)
               == VolumeOf(s.volumes, u, day)
                  + (if day == at.day then VolumeOfFill(s.wallets, s.orders[f.maker].wallet, s.orders[taker].wallet, f, u) else 0)
            && SameTerms(s.orders, r.orders)
            && forall w :: UserOf(r.wallets, w) == UserOf(s.wallets, w)
  {
    FillMoves(pair, s, taker, f, at);
    FillKeepsTerms(s.orders, taker, f);
    var t := TradeOf(pair, s, taker, f, at);
    FillVolume(s, t, u, day);
    assert ApplyFill(pair, s, taker, f, at).volumes == VolumesAfter(s, t);
  }

  lemma {:induction false} FillsVolume(pair: Pair, s: State, taker: OrderId, fills: seq<Fill>, at: Tick, u: UserId, day: Day)
    requires pair.base != pair.quote
    requires Linked(s) && taker in s.orders && FillsOk(s.orders, taker, fills)
    requires forall f :: f in fills ==> f.maker in s.orders
    ensures VolumeOf(ApplyFills(pair, s, taker, fills, at).volumes, u, day)
         == VolumeOf(s.volumes, u, day)
            + if day == at.day then VolumeOfFills(s.wallets, s.orders, s.orders[taker].wallet, fills, u) else 0
    decreases |fills|
  {
    if fills != [] {
      var s1 := ApplyFill(pair, s, taker, fills[0], at);
      FillEffect(pair, s, taker, fills[0], at);
      FillAddsVolume(pair, s, taker, fills[0], at, u, day);
      FillsVolume(pair, s1, taker, fills[1..], at, u, day);
      VolumeOfFillsFrame(s.wallets, s.orders, s1.wallets, s1.orders, s.orders[taker].wallet, fills[1..], u);
    }
  }

  lemma MatchVolume(pair: Pair, s: State, x: OrderId, at: Tick, u: UserId, day: Day)
    requires pair.base != pair.quote && Ready(s, x) && s.orders[x].status == Open
    ensures VolumeOf(Match(pair, s, x, at).volumes, u, day)
         == VolumeOf(s.volumes, u, day)
            + if day == at.day then VolumeOfFills(s.wallets, s.orders, s.orders[x].wallet, FillsOf(s, x), u) else 0
  {
    MatchRestates(pair, s, x, at);
    FillsVolume(pair, s, x, FillsOf(s, x), at, u, day);
  }

  lemma AdmitTerms(pair: Pair, s: State, a: PlaceArgs)
    requires WellFormed(s) && a.wallet in s.wallets
    ensures var r := Admit(pair, s, a);
            && SameTerms(s.orders, r.orders) && r.volumes == s.volumes
            && forall w :: UserOf(r.wallets, w) == UserOf(s.wallets, w)
  {
    assert s.orderSeq + 1 !in s.orders;
  }

  lemma AdmittedVolume(pair: Pair, s0: State, a: PlaceArgs, at: Tick, s1: State, u: UserId, day: Day)
    requires pair.base != pair.quote && WellFormed(s0) && Admitted(pair, s0, a, s1)
    requires Known(s0.orders, s0.Book(Opposite(a.side))) && FillsOf(s1, s1.orderSeq) == BookFills(s0, a)
    ensures VolumeOf(Match(pair, s1, s1.orderSeq, at).volumes, u, day)
         == VolumeOf(s0.volumes, u, day)
            + if day == at.day then VolumeOfFills(s0.wallets, s0.orders, a.wallet, BookFills(s0, a), u) else 0
  {
    MatchVolume(pair, s1, s1.orderSeq, at, u, day);
    AdmitTerms(pair, s0, a);
    VolumeOfFillsFrame(s0.wallets, s0.orders, s1.wallets, s1.orders, a.wallet, BookFills(s0, a), u);
  }

  /** The volumes after a placement of any kind: each user's day grows by the value of the fills, once for every
      side the user stands on, and no other day changes. */
  lemma PlacementVolume(env: Env, s: State, a: PlaceArgs, at: Tick, s': State, r: PlaceResult, u: UserId, day: Day)
    requires WellFormed(s) && env.Sound() && Place(env, s, a, at, s', r) && r.Placed?
    ensures Known(s.orders, s.Book(Opposite(a.side))) && a.wallet in s.wallets
    ensures VolumeOf(s'.volumes, u, day)
         == VolumeOf(s.volumes, u, day)
            + if day == at.day then VolumeOfFills(s.wallets, s.orders, a.wallet, BookFills(s, a), u) else 0
  {
    var s0, s1 := PlaceStages(env, s, a, at, s', r);
    AdmittedVolume(env.pair, s0, a, at, s1, u, day);
  }

  /** No fill is with an order of user `u`. */
  predicate WithOthers(ws: Wallets, orders: Orders, fills: seq<Fill>, u: UserId)
    requires forall f :: f in fills ==> f.maker in orders
  {
    forall f :: f in fills ==> UserOf(ws, orders[f.maker].wallet) != Some(u)
  }

  lemma {:induction false} VolumeIsCost(ws: Wallets, orders: Orders, taker: WalletId, fills: seq<Fill>, u: UserId)
    requires forall f :: f in fills ==> f.maker in orders
    requires UserOf(ws, taker) == Some(u) && WithOthers(ws, orders, fills, u)
    ensures VolumeOfFills(ws, orders, taker, fills, u) == Cost(fills)
  {
    if fills != [] {
      assert fills[0] in fills;
      VolumeIsCost(ws, orders, taker, fills[1..], u);
    }
  }

  /** A limit buy never costs more than the value it was checked for. */
  lemma LimitBuyCost(s: State, a: PlaceArgs)
    requires WellFormed(s) && a.side == Buy && a.typ == Limit && a.price > 0 && a.quantity >= 0
    ensures Known(s.orders, s.asks) && Cost(BookFills(s, a)) <= QuoteValue(a.price, a.quantity)
  {
    BookFillsOthers(s, a);
    var fills := BookFills(s, a);
    forall i | 0 <= i < |fills| ensures fills[i].price <= a.price && fills[i].qty >= 0 {
      assert fills[i] in fills;
    }
    CostBound(fills, a.price, a.quantity);
    QuoteValueNonNegative(a.price, a.quantity - Qty(fills));
  }

  /** The day's volume of the taker's user after a placement of any kind is within the limit of its tier exactly when
      the old volume and the value of the fills, counted once for every side the user stands on, are; and so it is
      for a limit buy of a user with a daily limit that fills with other users only. */
  lemma PlacementWithinTier(env: Env, s: State, a: PlaceArgs, at: Tick, s': State, r: PlaceResult)
    requires WellFormed(s) && env.Sound() && Place(env, s, a, at, s', r) && r.Placed?
    ensures Known(s.orders, s.Book(Opposite(a.side))) && a.wallet in s.wallets
    ensures var w, fills := s.wallets[a.wallet], BookFills(s, a);
            && (VolumeOf(s'.volumes, w.user, at.day) <= env.TierLimit(w.tier)
                <==> VolumeOf(s.volumes, w.user, at.day) + VolumeOfFills(s.wallets, s.orders, a.wallet, fills, w.user)
                     <= env.TierLimit(w.tier))
            && (a.side == Buy && a.typ == Limit && w.tier != Institutional && WithOthers(s.wallets, s.orders, fills, w.user)
                ==> VolumeOf(s'.volumes, w.user, at.day) <= env.TierLimit(w.tier))
  {
    PlacePassedLimit(env, s, a, at, s', r);
    var w := s.wallets[a.wallet];
    PlacementVolume(env, s, a, at, s', r, w.user, at.day);
    if a.side == Buy && a.typ == Limit && WithOthers(s.wallets, s.orders, BookFills(s, a), w.user) {
      VolumeIsCost(s.wallets, s.orders, a.wallet, BookFills(s, a), w.user);
      LimitBuyCost(s, a);
    }
  }

  // ---- The trades ----

  /** The trades a placement reports are the fills it meets in the book, in order, and are added to the log. */
  lemma PlacementTrades(env: Env, s: State, a: PlaceArgs, at: Tick, s': State, r: PlaceResult)
    requires WellFormed(s) && env.Sound() && Place(env, s, a, at, s', r) && r.Placed?
    ensures Known(s.orders, s.Book(Opposite(a.side)))
    ensures s'.trades == s.trades + r.trades
    ensures Recorded(env.pair, r.id, BookFills(s, a), s.tradeSeq, at, r.trades)
  {
    var s0, s1 := PlaceStages(env, s, a, at, s', r);
    AdmittedTrades(env.pair, s0, a, at, s1);
    var m := Match(env.pair, s1, s1.orderSeq, at);
    TradesAside(s, s0, m, s', r.trades);
  }

  lemma TradesAside(s: State, s0: State, m: State, s': State, more: seq<Trade>)
    requires VolumesAside(s, s0) && BooksAside(m, s') && s0.trades <= m.trades
    requires |s.trades| <= |s'.trades| && more == s'.trades[|s.trades|..]
    ensures s'.trades == s.trades + more && more == m.trades[|s0.trades|..] && s0.tradeSeq == s.tradeSeq
  {
  }

  lemma AdmittedTrades(pair: Pair, s0: State, a: PlaceArgs, at: Tick, s1: State)
    requires Admitted(pair, s0, a, s1)
    ensures var m := Match(pair, s1, s1.orderSeq, at);
            && s0.trades <= m.trades
            && Recorded(pair, s1.orderSeq, FillsOf(s1, s1.orderSeq), s0.tradeSeq, at, m.trades[|s0.trades|..])
  {
    MatchTrades(pair, s1, s1.orderSeq, at);
  }

  // ---- The orders ----

  /** `orders'` is `orders` after order `o` joined as `x` and met `fills`: it is filled by what they take and has
      its status set, and each older order is short of what they take from it. */
  ghost predicate OrdersMet(orders: Orders, x: OrderId, o: Order, fills: seq<Fill>, orders': Orders) {
    && x !in orders && orders'.Keys == orders.Keys + {x}
    && orders'[x] == Finish(o.Take(Qty(fills)))
    && forall id :: id in orders ==> MadeFrom(orders[id], orders'[id], FilledFrom(fills, id))
  }

  lemma MatchedMet(orders: Orders, x: OrderId, o: Order, fills: seq<Fill>, s1: State, m: State)
    requires x !in orders && s1.orders == orders[x := o] && MatchedOrders(s1, x, fills, m)
    ensures OrdersMet(orders, x, o, fills, m.orders)
  {
    forall id | id in orders ensures MadeFrom(orders[id], m.orders[id], FilledFrom(fills, id)) {
      assert id != x && s1.orders[id] == orders[id];
    }
  }

  lemma AdmittedMet(pair: Pair, s0: State, a: PlaceArgs, at: Tick, s1: State)
    requires WellFormed(s0) && Admitted(pair, s0, a, s1)
    ensures OrdersMet(s0.orders, s0.orderSeq + 1, NewOrder(a), FillsOf(s1, s1.orderSeq),
                      Match(pair, s1, s1.orderSeq, at).orders)
    ensures Match(pair, s1, s1.orderSeq, at).orderSeq == s0.orderSeq + 1
  {
    MatchEffect(pair, s1, s1.orderSeq, at);
    MatchedMet(s0.orders, s1.orderSeq, NewOrder(a), FillsOf(s1, s1.orderSeq), s1, Match(pair, s1, s1.orderSeq, at));
  }

  /** The orders after a placement. */
  lemma PlacementOrders(env: Env, s: State, a: PlaceArgs, at: Tick, s': State, r: PlaceResult)
    requires WellFormed(s) && env.Sound() && Place(env, s, a, at, s', r) && r.Placed?
    ensures Known(s.orders, s.Book(Opposite(a.side)))
    ensures OrdersMet(s.orders, s.orderSeq + 1, NewOrder(a), BookFills(s, a), s'.orders)
    ensures s'.orderSeq == s.orderSeq + 1
  {
    var s0, s1 := PlaceStages(env, s, a, at, s', r);
    AdmittedMet(env.pair, s0, a, at, s1);
    StagesMet(s, s0, a, FillsOf(s1, s1.orderSeq), Match(env.pair, s1, s1.orderSeq, at), s');
  }

  lemma StagesMet(s: State, s0: State, a: PlaceArgs, fills: seq<Fill>, m: State, s': State)
    requires VolumesAside(s, s0) && BooksAside(m, s')
    requires OrdersMet(s0.orders, s0.orderSeq + 1, NewOrder(a), fills, m.orders) && m.orderSeq == s0.orderSeq + 1
    ensures OrdersMet(s.orders, s.orderSeq + 1, NewOrder(a), fills, s'.orders) && s'.orderSeq == s.orderSeq + 1
  {
  }

  // ---- The owners ----

  lemma {:induction false} FillsKeepOwner(pair: Pair, s: State, taker: OrderId, fills: seq<Fill>, at: Tick, w: WalletId)
    requires pair.base != pair.quote
    requires Linked(s) && taker in s.orders && FillsOk(s.orders, taker, fills) && w in s.wallets
    requires forall f :: f in fills ==> f.maker in s.orders
    ensures SameOwner(s.wallets[w], ApplyFills(pair, s, taker, fills, at).wallets[w])
    decreases |fills|
  {
    if fills != [] {
      FillEffect(pair, s, taker, fills[0], at);
      FillMoves(pair, s, taker, fills[0], at);
      FillsKeepOwner(pair, ApplyFill(pair, s, taker, fills[0], at), taker, fills[1..], at, w);
    }
  }

  lemma AdmittedOwner(pair: Pair, s0: State, a: PlaceArgs, at: Tick, s1: State, w: WalletId)
    requires pair.base != pair.quote && Admitted(pair, s0, a, s1) && w in s0.wallets
    ensures w in Match(pair, s1, s1.orderSeq, at).wallets
    ensures SameOwner(s0.wallets[w], Match(pair, s1, s1.orderSeq, at).wallets[w])
  {
    MatchRestates(pair, s1, s1.orderSeq, at);
    FillsKeepOwner(pair, s1, s1.orderSeq, FillsOf(s1, s1.orderSeq), at, w);
  }

  /** A placement changes no wallet's owner, tier or standing. */
  lemma PlacementOwner(env: Env, s: State, a: PlaceArgs, at: Tick, s': State, r: PlaceResult, w: WalletId)
    requires WellFormed(s) && env.Sound() && Place(env, s, a, at, s', r) && r.Placed? && w in s.wallets
    ensures w in s'.wallets && SameOwner(s.wallets[w], s'.wallets[w])
  {
    var s0, s1 := PlaceStages(env, s, a, at, s', r);
    AdmittedOwner(env.pair, s0, a, at, s1, w);
  }

  // ---- What stays locked ----

  lemma LimitBuyGain(s: State, a: PlaceArgs, w: WalletId)
    requires WellFormed(s) && a.side == Buy && a.typ == Limit && a.price > 0 && a.quantity >= 0
    ensures Known(s.orders, s.asks) && BuyerGain(NewOrder(a), BookFills(s, a), w) >= 0
  {
    BookFillsOthers(s, a);
    var fills := BookFills(s, a);
    forall i | 0 <= i < |fills| ensures fills[i].price <= a.price && fills[i].qty >= 0 {
      assert fills[i] in fills;
    }
    CostBound(fills, a.price, a.quantity);
  }

  /** A placement leaves a wallet whose buys are all limit orders at least as much locked beyond its cover. */
  lemma PlaceKeepsSlack(env: Env, s: State, a: PlaceArgs, at: Tick, s': State, r: PlaceResult, w: WalletId)
    requires WellFormed(s) && env.Sound() && Place(env, s, a, at, s', r) && r.Placed? && w in s.wallets
    requires NoMarketBuys(s'.orders, w)
    ensures w in s'.wallets && Slack(env.pair, s', w) >= Slack(env.pair, s, w)
  {
    PlacementSlack(env, s, a, at, s', r, w);
    PlacementOrders(env, s, a, at, s', r);
    PlacePassedLimit(env, s, a, at, s', r);
    MetBuys(s.orders, s.orderSeq + 1, NewOrder(a), BookFills(s, a), s'.orders, w);
    if a.side == Sell {
      LimitBuyPrices(s, w);
    } else if a.wallet == w {
      LimitBuyGain(s, a, w);
    }
  }

  lemma MetBuys(orders: Orders, x: OrderId, o: Order, fills: seq<Fill>, orders': Orders, w: WalletId)
    requires OrdersMet(orders, x, o, fills, orders') && NoMarketBuys(orders', w)
    ensures NoMarketBuys(orders, w)
    ensures o.wallet == w && o.side == Buy ==> o.typ == Limit
  {
    forall id | id in orders && orders[id].wallet == w && orders[id].side == Buy
      ensures orders[id].typ == Limit
    {
      assert MadeFrom(orders[id], orders'[id], FilledFrom(fills, id));
    }
  }

  lemma LimitBuyPrices(s: State, w: WalletId)
    requires WellFormed(s) && NoMarketBuys(s.orders, w)
    ensures BuyPrices(s.orders, w)
  {
    forall id | id in s.orders && s.orders[id].wallet == w && s.orders[id].side == Buy
      ensures s.orders[id].price >= 0
    {
      assert OrderOk(s.orders[id]);
    }
  }

  /** A cancellation releases the cover of its order and no more. */
  lemma CancelKeepsSlack(pair: Pair, s: State, id: OrderId, caller: WalletId, w: WalletId)
    requires WellFormed(s) && pair.base != pair.quote && w in s.wallets
    ensures w in Cancel(pair, s, id, caller).0.wallets && Slack(pair, Cancel(pair, s, id, caller).0, w) == Slack(pair, s, w)
  {
    if CancelError(s, id, caller).None? {
      var o := s.orders[id];
      assert OrderOk(o);
      CancelRelocks(pair, s, id, caller);
      CancelShares(pair, o, w);
      RelockedSlack(pair, s, Cancel(pair, s, id, caller).0, id, o.(status := Cancelled),
                    LockDenom(pair, o.side), -LockAmount(o.side, o.price, o.remaining), w);
    }
  }

  lemma WalletsOnlySlack(pair: Pair, s: State, r: State, w: WalletId)
    requires WalletsOnly(s, r) && w in s.wallets
    ensures w in r.wallets && Slack(pair, r, w) == Slack(pair, s, w)
  {
  }

  /** Nothing ever releases what price improvement and rounding leave locked: no step lowers what the lock of a wallet
      without market buys holds beyond the cover of its active buys. */
  lemma NextKeepsSlack(env: Env, s: State, e: Event, s': State, w: WalletId)
    requires WellFormed(s) && env.Sound() && Next(env, s, e, s') && w in s.wallets
    requires NoMarketBuys(s'.orders, w)
    ensures w in s'.wallets && Slack(env.pair, s', w) >= Slack(env.pair, s, w)
  {
    match e
    case PlaceEv(a, at) =>
      var r :| Place(env, s, a, at, s', r);
      if r.Placed? {
        PlaceKeepsSlack(env, s, a, at, s', r, w);
      } else {
        PlaceRejected(env, s, a, at, s', r);
        SameSlack(env.pair, s, s', w);
      }
    case CancelEv(id, caller) => CancelKeepsSlack(env.pair, s, id, caller, w);
    case ReloadEv => SameSlack(env.pair, s, s', w);
    case CreateWalletEv(user) =>
      CreateWalletsOnly(env, s, user);
      WalletsOnlySlack(env.pair, s, s', w);
    case DepositEv(x, d, amount) =>
      DepositWalletsOnly(s, x, d, amount);
      WalletsOnlySlack(env.pair, s, s', w);
    case WithdrawEv(x, d, amount) =>
      WithdrawWalletsOnly(s, x, d, amount);
      WalletsOnlySlack(env.pair, s, s', w);
    case StandingEv(x, tier, active) =>
      StandingWalletsOnly(s, x, tier, active);
      WalletsOnlySlack(env.pair, s, s', w);
  }
}
