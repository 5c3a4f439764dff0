/** What holds in every state of every run of the exchange. */
module ExchangeRuns {
  import opened Sums
  import opened Amounts
  import opened ExchangeTypes
  import opened ExchangeState
  import opened ExchangeWellFormed
  import opened ExchangeBooks
  import opened ExchangeMoney
  import opened ExchangeLocks
  import opened ExchangeLedger
  import opened ExchangeInvariants
  import opened ExchangeBalances
  import opened ExchangeSolvency
  import opened ExchangeTrades
  import opened ExchangePlacements

  lemma InitAccounts(pair: Pair)
    ensures WellFormed(INIT_STATE) && Accounts(pair, INIT_STATE)
    ensures LimitOnly(INIT_STATE) && Uncrossed(INIT_STATE)
    ensures PricesNonNegative(INIT_STATE.orders) && Solvent(pair, INIT_STATE)
  {
    assert BookOk(INIT_STATE, Buy) && BookOk(INIT_STATE, Sell);
  }

  /** In every run, with any events at all: quantities and statuses agree, both books are sorted, list
      active orders once and miss no active limit order; a base lock is exactly what the active sells have
      left; a quote lock is exactly what the wallet's buys took and did not give back, less what its purchases
      cost; filled quantities and daily volumes are what the trade log says; and every logged trade is valid. */
  lemma {:induction false} RunKeepsAccounts(env: Env, states: seq<State>, events: seq<Event>, k: nat)
    requires env.Sound() && Run(env, states, events) && k <= |events|
    ensures WellFormed(states[k]) && Accounts(env.pair, states[k])
  {
    if k == 0 {
      InitAccounts(env.pair);
    } else {
      RunKeepsAccounts(env, states, events, k - 1);
      NextWellFormed(env, states[k - 1], events[k - 1], states[k]);
      NextKeepsAccounts(env, states[k - 1], events[k - 1], states[k]);
    }
  }

  /** What the events of a run before `k` brought in, less what they took out. */
  ghost function NetFlow(states: seq<State>, events: seq<Event>, k: nat, d: Denom): int
    requires k <= |events| < |states|
  {
    if k == 0 then 0 else NetFlow(states, events, k - 1, d) + Flow(states[k - 1], events[k - 1], d)
  }

  /** Conservation. In every run and every denomination, the balances of all wallets, and for the quote all
      fees charged, add up to what was deposited less what was withdrawn. */
  lemma {:induction false} RunConserves(env: Env, states: seq<State>, events: seq<Event>, k: nat, d: Denom)
    requires env.Sound() && Run(env, states, events) && k <= |events|
    ensures Holdings(env.pair, states[k], d) == NetFlow(states, events, k, d)
  {
    if k > 0 {
      RunConserves(env, states, events, k - 1, d);
      RunKeepsAccounts(env, states, events, k - 1);
      NextHoldings(env, states[k - 1], events[k - 1], states[k], d);
    }
  }

  /** Solvency. When no deposit and no price is negative, every wallet's free quote is at least minus the
      fees charged to it as a buyer, and its base balance covers a base lock that is never negative. */
  lemma {:induction false} RunSolvent(env: Env, states: seq<State>, events: seq<Event>, k: nat)
    requires env.Sound() && Run(env, states, events) && k <= |events|
    requires forall i :: 0 <= i < k ==> Sane(events[i])
    ensures SolventState(env, states[k])
    ensures forall w :: w in states[k].wallets ==>
              0 <= states[k].wallets[w].Locked(env.pair.base) <= states[k].wallets[w].Balance(env.pair.base)
  {
    RunKeepsAccounts(env, states, events, k);
    if k == 0 {
      InitAccounts(env.pair);
    } else {
      RunSolvent(env, states, events, k - 1);
      RunKeepsAccounts(env, states, events, k - 1);
      NextKeepsSolvent(env, states[k - 1], events[k - 1], states[k]);
    }
    BaseLockRange(env, states[k]);
  }

  lemma BaseLockRange(env: Env, s: State)
    requires WellFormed(s) && BaseLocksExact(env.pair, s) && Solvent(env.pair, s)
    ensures forall w :: w in s.wallets ==>
              0 <= s.wallets[w].Locked(env.pair.base) <= s.wallets[w].Balance(env.pair.base)
  {
    forall w | w in s.wallets
      ensures 0 <= s.wallets[w].Locked(env.pair.base) <= s.wallets[w].Balance(env.pair.base)
    {
      forall id | id in s.orders ensures SellRemaining(w)(s.orders[id]) >= 0 {
        assert OrderOk(s.orders[id]);
      }
      SumNonNegative(s.orders, SellRemaining(w));
    }
  }

  /** What the owner of wallet `w` moved in before event `k` of a run, less what was moved out. */
  ghost function NetFlowOf(states: seq<State>, events: seq<Event>, k: nat, w: WalletId, d: Denom): int
    requires k <= |events| < |states|
  {
    if k == 0 then 0 else NetFlowOf(states, events, k - 1, w, d) + FlowOf(states[k - 1], events[k - 1], w, d)
  }

  /** In every run the balance of every wallet, in every denomination, is what its owner moved in and out and
      what its trades moved: as a buyer the units in and the value and fee out, as a seller the units out and the
      value less the fee in. */
  lemma {:induction false} RunBalances(env: Env, states: seq<State>, events: seq<Event>, k: nat, w: WalletId, d: Denom)
    requires env.Sound() && Run(env, states, events) && k <= |events|
    ensures BalanceOf(states[k], w, d)
         == NetFlowOf(states, events, k, w, d) + SeqSum(states[k].trades, Gained(env.pair, w, d))
  {
    if k > 0 {
      RunBalances(env, states, events, k - 1, w, d);
      RunKeepsAccounts(env, states, events, k - 1);
      NextBrought(env, states[k - 1], events[k - 1], states[k], w, d);
    }
  }

  /** What trade `t` adds to the free quote of wallet `w` beyond what the lock paid: sale proceeds, or minus the
      buyer's fee. */
  function FreeGain(w: WalletId): Trade -> int {
    (t: Trade) => if Buyer(t) == w then -BuyerFee(t) else if Seller(t) == w then Value(t) - SellerFee(t) else 0
  }

  /** The solvency bound as an equation: in every run the free quote of a wallet is what its owner moved, plus its
      sale proceeds less fees, less its fees as a buyer, less what its buys took as locks and did not give back. */
  lemma RunFreeQuote(env: Env, states: seq<State>, events: seq<Event>, k: nat, w: WalletId)
    requires env.Sound() && Run(env, states, events) && k <= |events| && w in states[k].wallets
    ensures var s := states[k];
            s.wallets[w].Available(env.pair.quote)
            == NetFlowOf(states, events, k, w, env.pair.quote)
               + SeqSum(s.trades, FreeGain(w)) - Sum(s.orders, LockTaken(w))
  {
    RunKeepsAccounts(env, states, events, k);
    RunBalances(env, states, events, k, w, env.pair.quote);
    FreeQuote(env.pair, states[k], w);
  }

  lemma FreeQuote(pair: Pair, s: State, w: WalletId)
    requires pair.base != pair.quote && QuoteLocksExact(pair, s) && w in s.wallets
    ensures s.wallets[w].Available(pair.quote)
         == Brought(pair, s, w, pair.quote) + SeqSum(s.trades, FreeGain(w)) - Sum(s.orders, LockTaken(w))
  {
    forall t | t in s.trades ensures FreeGain(w)(t) == Gained(pair, w, pair.quote)(t) + Paid(w)(t) {
      FreeGainIs(pair, t, w);
    }
    SeqSumPlus(s.trades, FreeGain(w), Gained(pair, w, pair.quote), Paid(w));
  }

  lemma FreeGainIs(pair: Pair, t: Trade, w: WalletId)
    requires pair.base != pair.quote
    ensures FreeGain(w)(t) == Gained(pair, w, pair.quote)(t) + Paid(w)(t)
  {
  }

  /** The quote lock of any wallet of a run. It covers the active buys if and only if the wallet's purchases cost
      no more than its buys gave up for them, which is so for a wallet without market buys; and the balance is
      short of the lock by no more than the fees charged to the wallet as a buyer. */
  lemma RunQuoteFloor(env: Env, states: seq<State>, events: seq<Event>, k: nat, w: WalletId)
    requires env.Sound() && Run(env, states, events) && k <= |events|
    requires forall i :: 0 <= i < k ==> Sane(events[i])
    requires w in states[k].wallets
    ensures var s := states[k];
            var cover := Sum(s.orders, BuyCover(w));
            && cover >= 0
            && (s.wallets[w].Locked(env.pair.quote) >= cover
                <==> SeqSum(s.trades, Paid(w)) <= Sum(s.orders, Given(w)))
            && (NoMarketBuys(s.orders, w) ==> s.wallets[w].Locked(env.pair.quote) >= cover)
            && s.wallets[w].Balance(env.pair.quote)
               >= s.wallets[w].Locked(env.pair.quote) - SeqSum(s.trades, FeePaidAsBuyer(w))
  {
    var s := states[k];
    RunKeepsAccounts(env, states, events, k);
    RunSolvent(env, states, events, k);
    CoverExactly(env.pair, s, w);
    if NoMarketBuys(s.orders, w) { LimitBuyersNeverOverpay(env.pair, s, w); }
    forall id | id in s.orders ensures BuyCover(w)(s.orders[id]) >= 0 {
      assert OrderOk(s.orders[id]);
      QuoteValueNonNegative(s.orders[id].price, s.orders[id].remaining);
    }
    SumNonNegative(s.orders, BuyCover(w));
  }

  /** The lock cover over runs with any events at all: it holds exactly when purchases cost no more than the
      buys gave up. */
  lemma RunLockCover(env: Env, states: seq<State>, events: seq<Event>, k: nat, w: WalletId)
    requires env.Sound() && Run(env, states, events) && k <= |events| && w in states[k].wallets
    ensures var s := states[k];
            && s.wallets[w].Locked(env.pair.quote) == Sum(s.orders, LockTaken(w)) - SeqSum(s.trades, Paid(w))
            && (s.wallets[w].Locked(env.pair.quote) >= Sum(s.orders, BuyCover(w))
                <==> SeqSum(s.trades, Paid(w)) <= Sum(s.orders, Given(w)))
  {
    RunKeepsAccounts(env, states, events, k);
    CoverExactly(env.pair, states[k], w);
  }

  /** In a run that never restarts with an active market order, the books list exactly the active limit
      orders, and no bid and ask of different wallets ever meet. */
  lemma {:induction false} RunBooks(env: Env, states: seq<State>, events: seq<Event>, k: nat)
    requires env.Sound() && Run(env, states, events) && k <= |events|
    requires forall i :: 0 <= i < k ==> Clean(states[i], events[i])
    ensures WellFormed(states[k]) && BooksExact(states[k]) && Uncrossed(states[k])
  {
    RunKeepsAccounts(env, states, events, k);
    if k == 0 {
      InitAccounts(env.pair);
    } else {
      RunBooks(env, states, events, k - 1);
      BooksExactIsLimitOnly(states[k - 1]);
      NextKeepsBooks(env, states[k - 1], events[k - 1], states[k]);
    }
    BooksExactIsLimitOnly(states[k]);
  }

  /** Once filled or cancelled, an order stays as it is and is named by no later trade. */
  lemma {:induction false} RunKeepsTerminal(env: Env, states: seq<State>, events: seq<Event>, i: nat, k: nat,
      id: OrderId)
    requires env.Sound() && Run(env, states, events) && i <= k <= |events|
    requires id in states[i].orders && !states[i].orders[id].Active()
    ensures Untouched(states[i], states[k], id)
  {
    if i < k {
      RunKeepsTerminal(env, states, events, i, k - 1, id);
      RunKeepsAccounts(env, states, events, k - 1);
      NextKeepsTerminal(env, states[k - 1], events[k - 1], states[k], id);
      UntouchedTwice(states[i], states[k - 1], states[k], id);
    }
  }

  lemma UntouchedTwice(s: State, m: State, r: State, id: OrderId)
    requires Untouched(s, m, id) && Untouched(m, r, id)
    ensures Untouched(s, r, id)
  {
    forall t | t in r.trades[|s.trades|..] ensures t.makerOrder != id && t.takerOrder != id {
      var i :| 0 <= i < |r.trades[|s.trades|..]| && r.trades[|s.trades|..][i] == t;
      var j := i + |s.trades|;
      if j < |m.trades| {
        assert m.trades[|s.trades|..][i] == t;
      } else {
        assert r.trades[|m.trades|..][j - |m.trades|] == t;
      }
    }
  }

  // ---- 64-bit arithmetic ----

  const INT64_MAX := 9_223_372_036_854_775_807
  const LARGEST_LIMIT := 50_000_000_000
  const LARGEST_PRODUCT := 50_000_000_000_999_999

  /** Daily limits as configured by default or below, and fees up to 184 basis points. */
  predicate Limited(env: Env) {
    && (forall t: Tier :: t != Institutional ==> env.TierLimit(t) <= LARGEST_LIMIT)
    && env.pair.makerFee <= 184
    && env.pair.takerFee <= 184
  }

  lemma DefaultIsLimited()
    ensures DEFAULT_ENV.Sound() && Limited(DEFAULT_ENV)
  {
  }

  /** An order is placed by a wallet that has a daily limit. */
  ghost predicate Capped(s: State, e: Event) {
    e.PlaceEv? && e.args.wallet in s.wallets ==> s.wallets[e.args.wallet].tier != Institutional
  }

  lemma VolumesNonNegative(env: Env, s: State, u: UserId, day: Day)
    requires Accounts(env.pair, s) && PricesNonNegative(s.orders)
    ensures VolumeOf(s.volumes, u, day) >= 0
  {
    forall t | t in s.trades ensures VolumeBy(s.wallets, u, day)(t) >= 0 {
      assert TradeValid(env.pair, s.orders, t);
      QuoteValueNonNegative(t.price, t.quantity);
      MulNonNegative(Value(t), Sides(s.wallets, t, u));
    }
    SeqSumNonNegative(s.trades, VolumeBy(s.wallets, u, day));
  }

  /** An order of a wallet with a daily limit is small. */
  lemma SmallPlacement(env: Env, s: State, a: PlaceArgs, at: Tick, s': State, r: PlaceResult)
    requires WellFormed(s) && env.Sound() && Limited(env) && Accounts(env.pair, s) && PricesNonNegative(s.orders)
    requires Place(env, s, a, at, s', r) && r.Placed? && a.price >= 0 && Capped(s, PlaceEv(a, at))
    ensures a.price * a.quantity <= LARGEST_PRODUCT
  {
    PlacePassedLimit(env, s, a, at, s', r);
    VolumesNonNegative(env, s, s.wallets[a.wallet].user, at.day);
    MulNonNegative(a.price, a.quantity);
  }

  /** What an order asks for. */
  predicate KeepsTerms(o: Order, o': Order) {
    o'.wallet == o.wallet && o'.side == o.side && o'.typ == o.typ && o'.price == o.price && o'.quantity == o.quantity
  }

  /** Order `id` was not there before an event and is afterwards. */
  predicate Appears(s: State, s': State, id: OrderId) { id !in s.orders && id in s'.orders }

  /** No step changes what an order asks for, and only a placement adds one, with the terms it was placed with. */
  lemma NextKeepsTerms(env: Env, s: State, e: Event, s': State, id: OrderId)
    requires WellFormed(s) && env.Sound() && Next(env, s, e, s')
    ensures id in s.orders ==> id in s'.orders && KeepsTerms(s.orders[id], s'.orders[id])
    ensures Appears(s, s', id) ==>
              && e.PlaceEv? && KeepsTerms(NewOrder(e.args), s'.orders[id])
              && exists r :: Place(env, s, e.args, e.at, s', r) && r.Placed?
  {
    match e
    case PlaceEv(a, at) =>
      var r :| Place(env, s, a, at, s', r);
      PlaceKeepsTerms(env, s, a, at, s', r, id);
    case CancelEv(x, w) =>
    case _ => assert s'.orders == s.orders;
  }

  lemma PlaceKeepsTerms(env: Env, s: State, a: PlaceArgs, at: Tick, s': State, r: PlaceResult, id: OrderId)
    requires WellFormed(s) && env.Sound() && Place(env, s, a, at, s', r)
    ensures id in s.orders ==> id in s'.orders && KeepsTerms(s.orders[id], s'.orders[id])
    ensures Appears(s, s', id) ==> r.Placed? && KeepsTerms(NewOrder(a), s'.orders[id])
  {
    if r.Placed? {
      PlaceJoined(env, s, a, at, s', r);
      JoinedTerms(s, a, r.id, s', id);
    } else {
      PlaceRejected(env, s, a, at, s', r);
    }
  }

  lemma JoinedTerms(s: State, a: PlaceArgs, x: OrderId, s': State, id: OrderId)
    requires Joined(s, a, x, s')
    ensures id in s.orders ==> id in s'.orders && KeepsTerms(s.orders[id], s'.orders[id])
    ensures Appears(s, s', id) ==> KeepsTerms(NewOrder(a), s'.orders[id])
  {
    assert id in s.orders ==> Kept(s.orders[id], s'.orders[id]);
  }

  /** If order `id` was placed before event `k` of a run, the wallet that placed it had a daily limit. */
  ghost predicate CappedOrder(states: seq<State>, events: seq<Event>, k: nat, id: OrderId)
    requires k <= |events| < |states|
  {
    forall i :: 0 <= i < k && Appears(states[i], states[i + 1], id) ==> Capped(states[i], events[i])
  }

  /** Event `i` of a run placed order `id`. */
  ghost predicate PlacedBy(env: Env, states: seq<State>, events: seq<Event>, i: nat, id: OrderId)
    requires i < |events| < |states|
  {
    && Appears(states[i], states[i + 1], id)
    && WellFormed(states[i]) && events[i].PlaceEv?
    && exists r :: Place(env, states[i], events[i].args, events[i].at, states[i + 1], r) && r.Placed?
  }

  lemma PlacedNow(env: Env, states: seq<State>, events: seq<Event>, i: nat, id: OrderId)
    requires env.Sound() && Run(env, states, events) && i < |events|
    requires Appears(states[i], states[i + 1], id)
    ensures PlacedBy(env, states, events, i, id) && KeepsTerms(NewOrder(events[i].args), states[i + 1].orders[id])
  {
    RunKeepsAccounts(env, states, events, i);
    NextKeepsTerms(env, states[i], events[i], states[i + 1], id);
  }

  lemma TermsKept(env: Env, states: seq<State>, events: seq<Event>, i: nat, id: OrderId)
    requires env.Sound() && Run(env, states, events) && i < |events|
    requires id in states[i].orders
    ensures id in states[i + 1].orders && KeepsTerms(states[i].orders[id], states[i + 1].orders[id])
  {
    RunKeepsAccounts(env, states, events, i);
    NextKeepsTerms(env, states[i], events[i], states[i + 1], id);
  }

  /** Every order of a run was placed by one of its events and still asks for what it did then. */
  lemma {:induction false} RunPlaced(env: Env, states: seq<State>, events: seq<Event>, k: nat, id: OrderId)
    returns (i: nat)
    requires env.Sound() && Run(env, states, events) && k <= |events|
    requires id in states[k].orders
    ensures i < k && PlacedBy(env, states, events, i, id)
    ensures var a, o := events[i].args, states[k].orders[id];
            && o.wallet == a.wallet && o.side == a.side && o.typ == a.typ
            && o.price == a.price && o.quantity == a.quantity
  {
    if id in states[k - 1].orders {
      i := RunPlaced(env, states, events, k - 1, id);
      TermsKept(env, states, events, k - 1, id);
    } else {
      i := k - 1;
      PlacedNow(env, states, events, i, id);
    }
  }

  lemma RunPrices(env: Env, states: seq<State>, events: seq<Event>, k: nat)
    requires env.Sound() && Run(env, states, events) && k <= |events|
    requires forall i :: 0 <= i < k ==> Sane(events[i])
    ensures PricesNonNegative(states[k].orders)
  {
    RunSolvent(env, states, events, k);
  }

  /** An order of a run placed by a wallet with a daily limit is small. */
  lemma RunOrderSmall(env: Env, states: seq<State>, events: seq<Event>, k: nat, id: OrderId)
    requires env.Sound() && Limited(env) && Run(env, states, events) && k <= |events|
    requires forall i :: 0 <= i < k ==> Sane(events[i])
    requires id in states[k].orders && CappedOrder(states, events, k, id)
    ensures var o := states[k].orders[id]; 0 <= o.price && o.price * o.quantity <= LARGEST_PRODUCT
  {
    var i := RunPlaced(env, states, events, k, id);
    RunKeepsAccounts(env, states, events, i);
    RunPrices(env, states, events, i);
    var a, at := events[i].args, events[i].at;
    var r :| Place(env, states[i], a, at, states[i + 1], r) && r.Placed?;
    assert Sane(events[i]) && Capped(states[i], events[i]);
    SmallPlacement(env, states[i], a, at, states[i + 1], r);
  }

  lemma NoMarketBefore(env: Env, states: seq<State>, events: seq<Event>, k: nat, w: WalletId)
    requires env.Sound() && Run(env, states, events) && k < |events| && NoMarketBuys(states[k + 1].orders, w)
    ensures NoMarketBuys(states[k].orders, w)
  {
    forall id | id in states[k].orders && states[k].orders[id].wallet == w && states[k].orders[id].side == Buy
      ensures states[k].orders[id].typ == Limit
    {
      TermsKept(env, states, events, k, id);
    }
  }

  /** In every run, what price improvement and rounding leave locked for a wallet without market buys stays locked. */
  lemma {:induction false} RunKeepsSlack(env: Env, states: seq<State>, events: seq<Event>, i: nat, k: nat, w: WalletId)
    requires env.Sound() && Run(env, states, events) && i <= k <= |events|
    requires w in states[i].wallets && NoMarketBuys(states[k].orders, w)
    ensures w in states[k].wallets && Slack(env.pair, states[k], w) >= Slack(env.pair, states[i], w)
  {
    if i < k {
      NoMarketBefore(env, states, events, k - 1, w);
      RunKeepsSlack(env, states, events, i, k - 1, w);
      RunKeepsAccounts(env, states, events, k - 1);
      NextKeepsSlack(env, states[k - 1], events[k - 1], states[k], w);
    }
  }

  /** Every product settling trade `t` forms is a 64-bit number. */
  predicate FitsInt64(pair: Pair, t: Trade) {
    && 0 <= t.price * t.quantity <= LARGEST_PRODUCT
    && 0 <= t.quantity * t.price * pair.makerFee <= INT64_MAX
    && 0 <= t.quantity * t.price * pair.takerFee <= INT64_MAX
  }

  /** A trade is no larger than the order it filled as a maker. */
  lemma TradeWithinMaker(pair: Pair, s: State, t: Trade)
    requires WellFormed(s) && FilledExact(s) && TradesValid(pair, s) && t in s.trades
    ensures t.makerOrder in s.orders
    ensures var m := s.orders[t.makerOrder]; t.price == m.price && 0 < t.quantity <= m.quantity
  {
    assert TradeValid(pair, s.orders, t);
    assert OrderOk(s.orders[t.makerOrder]);
    forall x | x in s.trades ensures FilledIn(t.makerOrder)(x) >= 0 {
      assert TradeValid(pair, s.orders, x);
    }
    SeqSumCovers(s.trades, t, FilledIn(t.makerOrder));
  }

  lemma SmallProduct(price: int, q: int, quantity: int, bps: int)
    requires 0 <= price && 0 <= q <= quantity && price * quantity <= LARGEST_PRODUCT && 0 <= bps <= 184
    ensures 0 <= price * q <= LARGEST_PRODUCT
    ensures 0 <= q * price * bps <= INT64_MAX
  {
    MulNonNegative(price, q);
    MulMono(q, quantity, price);
    assert q * price == price * q && quantity * price == price * quantity;
    MulNonNegative(q * price, bps);
    MulMono(q * price, LARGEST_PRODUCT, bps);
  }

  /** No overflow. A trade of a run without negative prices was settled without a product leaving 64 bits if the
      wallet that placed its maker order had a daily limit, whoever took it. */
  lemma RunFitsInt64(env: Env, states: seq<State>, events: seq<Event>, k: nat, t: Trade)
    requires env.Sound() && Limited(env) && Run(env, states, events) && k <= |events|
    requires forall i :: 0 <= i < k ==> Sane(events[i])
    requires t in states[k].trades && CappedOrder(states, events, k, t.makerOrder)
    ensures FitsInt64(env.pair, t)
  {
    RunKeepsAccounts(env, states, events, k);
    TradeWithinMaker(env.pair, states[k], t);
    RunOrderSmall(env, states, events, k, t.makerOrder);
    var m := states[k].orders[t.makerOrder];
    SmallProduct(m.price, t.quantity, m.quantity, env.pair.makerFee);
    SmallProduct(m.price, t.quantity, m.quantity, env.pair.takerFee);
  }

  /** The numbers of a trade. In every run its value is the millionth part of price times units, and each fee the
      ten-thousand-millionth part of that product times the rate, all without their fractions. */
  lemma RunAmounts(env: Env, states: seq<State>, events: seq<Event>, k: nat, t: Trade)
    requires env.Sound() && Run(env, states, events) && k <= |events| && t in states[k].trades
    ensures Truncates(t.price * t.quantity, 1_000_000, Value(t))
    ensures Truncates(t.quantity * t.price * env.pair.makerFee, 10_000_000_000, t.makerFee)
    ensures Truncates(t.quantity * t.price * env.pair.takerFee, 10_000_000_000, t.takerFee)
  {
    RunKeepsAccounts(env, states, events, k);
    assert TradeValid(env.pair, states[k].orders, t);
    QuoTruncates(t.price * t.quantity, 1_000_000, Value(t));
    QuoTruncates(t.quantity * t.price * env.pair.makerFee, 10_000_000_000, t.makerFee);
    QuoTruncates(t.quantity * t.price * env.pair.takerFee, 10_000_000_000, t.takerFee);
  }

  /** So when every order comes from a wallet with a daily limit, every trade was. */
  lemma RunAllFitInt64(env: Env, states: seq<State>, events: seq<Event>, k: nat)
    requires env.Sound() && Limited(env) && Run(env, states, events) && k <= |events|
    requires forall i :: 0 <= i < k ==> Sane(events[i]) && Capped(states[i], events[i])
    ensures forall t :: t in states[k].trades ==> FitsInt64(env.pair, t)
  {
    forall t | t in states[k].trades ensures FitsInt64(env.pair, t) {
      RunFitsInt64(env, states, events, k, t);
    }
  }
}
