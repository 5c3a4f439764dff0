/** What every operation keeps of the accounts: locks, covers, the trade log, volumes, holdings, solvency. */
module ExchangeInvariants {
  import opened Sums
  import opened ExchangeTypes
  import opened OrderBook
  import opened Matching
  import opened ExchangeState
  import opened ExchangeFills
  import opened ExchangeWellFormed
  import opened ExchangeMoney
  import opened ExchangeLocks
  import opened ExchangeLedger

  /** The accounts agree with the orders and the log. */
  ghost predicate Accounts(pair: Pair, s: State) {
    && BaseLocksExact(pair, s)
    && QuoteLocksExact(pair, s)
    && LockCover(pair, s)
    && FilledExact(s)
    && TradesValid(pair, s)
    && VolumesExact(s)
  }

  // ---- Matching ----

  lemma FillKeepsAccounts(pair: Pair, s: State, taker: OrderId, f: Fill, at: Tick)
    requires pair.base != pair.quote
    requires Linked(s) && FillOk(s.orders, taker, f) && Accounts(pair, s)
    ensures Accounts(pair, ApplyFill(pair, s, taker, f, at))
  {
    FillKeepsBaseLocks(pair, s, taker, f, at);
    FillKeepsQuoteLocks(pair, s, taker, f, at);
    FillKeepsCover(pair, s, taker, f, at);
    FillKeepsFilled(pair, s, taker, f, at);
    FillKeepsValid(pair, s, taker, f, at);
    var r := ApplyFill(pair, s, taker, f, at);
    forall u, day
      ensures VolumeOf(r.volumes, u, day) == SeqSum(r.trades, VolumeBy(r.wallets, u, day))
    {
      FillKeepsVolume(pair, s, taker, f, at, u, day);
    }
  }

  lemma {:induction false} FillsKeepAccounts(pair: Pair, s: State, taker: OrderId, fills: seq<Fill>, at: Tick)
    requires pair.base != pair.quote
    requires Linked(s) && taker in s.orders && FillsOk(s.orders, taker, fills)
    requires forall f :: f in fills ==> f.maker in s.orders
    requires Accounts(pair, s)
    ensures Accounts(pair, ApplyFills(pair, s, taker, fills, at))
    decreases |fills|
  {
    if fills != [] {
      FillEffect(pair, s, taker, fills[0], at);
      FillKeepsAccounts(pair, s, taker, fills[0], at);
      FillsKeepAccounts(pair, ApplyFill(pair, s, taker, fills[0], at), taker, fills[1..], at);
    }
  }

  lemma {:induction false} FillsKeepHoldings(pair: Pair, s: State, taker: OrderId, fills: seq<Fill>, at: Tick, d: Denom)
    requires pair.base != pair.quote
    requires Linked(s) && taker in s.orders && FillsOk(s.orders, taker, fills)
    requires forall f :: f in fills ==> f.maker in s.orders
    ensures Holdings(pair, ApplyFills(pair, s, taker, fills, at), d) == Holdings(pair, s, d)
    decreases |fills|
  {
    if fills != [] {
      FillEffect(pair, s, taker, fills[0], at);
      FillKeepsHoldings(pair, s, taker, fills[0], at, d);
      FillsKeepHoldings(pair, ApplyFill(pair, s, taker, fills[0], at), taker, fills[1..], at, d);
    }
  }

  lemma {:induction false} FillsKeepSolvent(env: Env, s: State, taker: OrderId, fills: seq<Fill>, at: Tick)
    requires env.Sound()
    requires Linked(s) && taker in s.orders && FillsOk(s.orders, taker, fills)
    requires forall f :: f in fills ==> f.maker in s.orders
    requires PricesNonNegative(s.orders) && Solvent(env.pair, s)
    ensures Solvent(env.pair, ApplyFills(env.pair, s, taker, fills, at))
    decreases |fills|
  {
    if fills != [] {
      FillKeepsTerms(s.orders, taker, fills[0]);
      FillEffect(env.pair, s, taker, fills[0], at);
      FillKeepsSolvent(env, s, taker, fills[0], at);
      FillsKeepSolvent(env, ApplyFill(env.pair, s, taker, fills[0], at), taker, fills[1..], at);
    }
  }

  /** Giving one order its final status changes no account. */
  lemma FinishKeepsSums(orders: Orders, x: OrderId, g: Order -> int)
    requires x in orders && g(Finish(orders[x])) == g(orders[x])
    ensures Sum(orders[x := Finish(orders[x])], g) == Sum(orders, g)
  {
    SumPut(orders, x, Finish(orders[x]), g);
  }

  /** `r` differs from `s` in the books and the status of `x` only. */
  ghost predicate Restated(s: State, x: OrderId, r: State) {
    && x in s.orders && s.orders[x].Active()
    && r.orders == s.orders[x := Finish(s.orders[x])]
    && r.wallets == s.wallets && r.trades == s.trades && r.volumes == s.volumes
  }

  lemma RestatedKeepsAccounts(pair: Pair, s: State, x: OrderId, r: State)
    requires Restated(s, x, r) && Accounts(pair, s)
    ensures Accounts(pair, r)
  {
    forall w ensures Sum(r.orders, SellRemaining(w)) == Sum(s.orders, SellRemaining(w)) {
      FinishKeepsSums(s.orders, x, SellRemaining(w));
    }
    forall w ensures Sum(r.orders, LockTaken(w)) == Sum(s.orders, LockTaken(w)) {
      FinishKeepsSums(s.orders, x, LockTaken(w));
    }
    forall w ensures Sum(r.orders, BuyCover(w)) == Sum(s.orders, BuyCover(w)) {
      FinishKeepsSums(s.orders, x, BuyCover(w));
    }
    RestatedKeepsLog(pair, s, x, r);
    forall w | NoOverpay(r.orders, r.trades, w) ensures NoOverpay(s.orders, s.trades, w) {
      OverpaidBefore(s.orders, s.trades, r.orders, r.trades, w);
    }
  }

  lemma RestatedKeepsLog(pair: Pair, s: State, x: OrderId, r: State)
    requires Restated(s, x, r) && FilledExact(s) && TradesValid(pair, s) && VolumesExact(s)
    ensures FilledExact(r) && TradesValid(pair, r) && VolumesExact(r)
  {
    forall t | t in r.trades ensures TradeValid(pair, r.orders, t) {
      assert TradeValid(pair, s.orders, t);
    }
  }

  /** The state a match leaves before `x` gets its status. */
  lemma MatchRestates(pair: Pair, s: State, x: OrderId, at: Tick)
    requires Ready(s, x) && s.orders[x].status == Open
    ensures FillsOk(s.orders, x, FillsOf(s, x))
    ensures Restated(ApplyFills(pair, s, x, FillsOf(s, x), at), x, Match(pair, s, x, at))
  {
    MatchFillsOk(s, x);
    FillsTaker(pair, s, x, FillsOf(s, x), at);
    ConcludeRestates(s, x, ApplyFills(pair, s, x, FillsOf(s, x), at));
  }

  lemma ConcludeRestates(s: State, x: OrderId, filled: State)
    requires x in s.orders && Known(s.orders, s.Book(Opposite(s.orders[x].side)))
    requires x in filled.orders && filled.orders[x].Active()
    ensures Restated(filled, x, Conclude(s, x, filled))
  {
  }

  lemma MatchKeepsAccounts(pair: Pair, s: State, x: OrderId, at: Tick)
    requires pair.base != pair.quote
    requires Ready(s, x) && s.orders[x].status == Open && Accounts(pair, s)
    ensures Accounts(pair, Match(pair, s, x, at))
  {
    MatchRestates(pair, s, x, at);
    FillsKeepAccounts(pair, s, x, FillsOf(s, x), at);
    RestatedKeepsAccounts(pair, ApplyFills(pair, s, x, FillsOf(s, x), at), x, Match(pair, s, x, at));
  }

  lemma MatchKeepsHoldings(pair: Pair, s: State, x: OrderId, at: Tick, d: Denom)
    requires pair.base != pair.quote && Ready(s, x) && s.orders[x].status == Open
    ensures Holdings(pair, Match(pair, s, x, at), d) == Holdings(pair, s, d)
  {
    MatchRestates(pair, s, x, at);
    FillsKeepHoldings(pair, s, x, FillsOf(s, x), at, d);
  }

  lemma MatchKeepsSolvent(env: Env, s: State, x: OrderId, at: Tick)
    requires env.Sound() && Ready(s, x) && s.orders[x].status == Open
    requires PricesNonNegative(s.orders) && Solvent(env.pair, s)
    ensures Solvent(env.pair, Match(env.pair, s, x, at))
  {
    MatchRestates(env.pair, s, x, at);
    FillsKeepSolvent(env, s, x, FillsOf(s, x), at);
  }

  // ---- Admission ----

  /** One order is stored and one lock of its wallet moves by `x`. */
  ghost predicate Relocked(s: State, r: State, id: OrderId, o: Order, d: Denom, x: int) {
    && o.wallet in s.wallets
    && r.orders == s.orders[id := o]
    && r.wallets.Keys == s.wallets.Keys
    && forall w, e :: w in s.wallets ==>
         r.wallets[w].Locked(e) == s.wallets[w].Locked(e) + if w == o.wallet && e == d then x else 0
  }

  /** The share of order `id` in a sum, zero when there is no such order. */
  function Share(orders: Orders, id: OrderId, g: Order -> int): int {
    if id in orders then g(orders[id]) else 0
  }

  lemma RelockedBase(pair: Pair, s: State, r: State, id: OrderId, o: Order, d: Denom, x: int)
    requires BaseLocksExact(pair, s) && Relocked(s, r, id, o, d, x)
    requires forall w :: SellRemaining(w)(o) - Share(s.orders, id, SellRemaining(w))
                      == if w == o.wallet && d == pair.base then x else 0
    ensures BaseLocksExact(pair, r)
  {
    forall w | w in r.wallets
      ensures r.wallets[w].Locked(pair.base) == Sum(r.orders, SellRemaining(w))
    {
      SumPut(s.orders, id, o, SellRemaining(w));
    }
  }

  lemma RelockedQuote(pair: Pair, s: State, r: State, id: OrderId, o: Order, d: Denom, x: int)
    requires QuoteLocksExact(pair, s) && Relocked(s, r, id, o, d, x) && r.trades == s.trades
    requires forall w :: LockTaken(w)(o) - Share(s.orders, id, LockTaken(w))
                      == if w == o.wallet && d == pair.quote then x else 0
    ensures QuoteLocksExact(pair, r)
  {
    forall w | w in r.wallets
      ensures r.wallets[w].Locked(pair.quote) == Sum(r.orders, LockTaken(w)) - SeqSum(r.trades, Paid(w))
    {
      SumPut(s.orders, id, o, LockTaken(w));
    }
  }

  /** The cover of one wallet rises by no more than its lock. */
  lemma RelockedCoverOf(pair: Pair, s: State, r: State, id: OrderId, o: Order, d: Denom, x: int, w: WalletId)
    requires Relocked(s, r, id, o, d, x) && w in s.wallets
    requires BuyCover(w)(o) - Share(s.orders, id, BuyCover(w)) == if w == o.wallet && d == pair.quote then x else 0
    requires s.wallets[w].Locked(pair.quote) >= Sum(s.orders, BuyCover(w))
    ensures r.wallets[w].Locked(pair.quote) >= Sum(r.orders, BuyCover(w))
  {
    SumPut(s.orders, id, o, BuyCover(w));
  }

  lemma RelockedCover(pair: Pair, s: State, r: State, id: OrderId, o: Order, d: Denom, x: int)
    requires LockCover(pair, s) && Relocked(s, r, id, o, d, x) && r.trades == s.trades
    requires id in s.orders ==>
               o.wallet == s.orders[id].wallet && o.side == s.orders[id].side && o.price == s.orders[id].price
    requires forall w :: BuyCover(w)(o) - Share(s.orders, id, BuyCover(w))
                      == if w == o.wallet && d == pair.quote then x else 0
    ensures LockCover(pair, r)
  {
    assert SameTerms(s.orders, r.orders);
    forall w | w in r.wallets && NoOverpay(r.orders, r.trades, w)
      ensures r.wallets[w].Locked(pair.quote) >= Sum(r.orders, BuyCover(w))
    {
      OverpaidBefore(s.orders, s.trades, r.orders, r.trades, w);
      RelockedCoverOf(pair, s, r, id, o, d, x, w);
    }
  }

  lemma AdmitRelocks(pair: Pair, s: State, a: PlaceArgs)
    requires a.wallet in s.wallets
    ensures Relocked(s, Admit(pair, s, a), s.orderSeq + 1, NewOrder(a),
                     LockDenom(pair, a.side), LockAmount(a.side, a.price, a.quantity))
  {
  }

  lemma AdmitKeepsLocks(pair: Pair, s: State, a: PlaceArgs)
    requires pair.base != pair.quote && WellFormed(s) && a.wallet in s.wallets
    requires BaseLocksExact(pair, s) && QuoteLocksExact(pair, s) && LockCover(pair, s)
    ensures BaseLocksExact(pair, Admit(pair, s, a)) && QuoteLocksExact(pair, Admit(pair, s, a))
    ensures LockCover(pair, Admit(pair, s, a))
  {
    var d, x := LockDenom(pair, a.side), LockAmount(a.side, a.price, a.quantity);
    AdmitRelocks(pair, s, a);
    assert s.orderSeq + 1 !in s.orders;
    RelockedBase(pair, s, Admit(pair, s, a), s.orderSeq + 1, NewOrder(a), d, x);
    RelockedQuote(pair, s, Admit(pair, s, a), s.orderSeq + 1, NewOrder(a), d, x);
    RelockedCover(pair, s, Admit(pair, s, a), s.orderSeq + 1, NewOrder(a), d, x);
  }

  /** No trade names an order still to be admitted. */
  lemma UntradedYet(pair: Pair, s: State, t: Trade, id: OrderId)
    requires TradesValid(pair, s) && t in s.trades && id !in s.orders
    ensures FilledIn(id)(t) == 0
  {
    assert TradeValid(pair, s.orders, t);
  }

  lemma AdmitKeepsFilled(pair: Pair, s: State, a: PlaceArgs)
    requires WellFormed(s) && a.wallet in s.wallets && FilledExact(s) && TradesValid(pair, s)
    ensures FilledExact(Admit(pair, s, a))
  {
    var id := s.orderSeq + 1;
    assert id !in s.orders;
    forall t | t in s.trades ensures FilledIn(id)(t) == 0 {
      UntradedYet(pair, s, t, id);
    }
    SeqSumZero(s.trades, FilledIn(id));
  }

  lemma AdmitKeepsValid(pair: Pair, s: State, a: PlaceArgs)
    requires WellFormed(s) && a.wallet in s.wallets && TradesValid(pair, s)
    ensures TradesValid(pair, Admit(pair, s, a))
  {
    assert s.orderSeq + 1 !in s.orders;
    forall t | t in s.trades ensures TradeValid(pair, Admit(pair, s, a).orders, t) {
      assert TradeValid(pair, s.orders, t);
    }
  }

  lemma AdmitKeepsLog(pair: Pair, s: State, a: PlaceArgs)
    requires WellFormed(s) && a.wallet in s.wallets
    requires FilledExact(s) && TradesValid(pair, s) && VolumesExact(s)
    ensures FilledExact(Admit(pair, s, a)) && TradesValid(pair, Admit(pair, s, a)) && VolumesExact(Admit(pair, s, a))
  {
    AdmitKeepsFilled(pair, s, a);
    AdmitKeepsValid(pair, s, a);
    SameUsersVolumes(s, Admit(pair, s, a));
  }

  /** Volumes depend on the log, the table and who owns the wallets of the log. */
  lemma SameUsersVolumes(s: State, r: State)
    requires VolumesExact(s) && r.trades == s.trades
    requires forall u, day :: VolumeOf(r.volumes, u, day) == VolumeOf(s.volumes, u, day)
    requires forall t :: t in s.trades ==>
               && UserOf(r.wallets, t.makerWallet) == UserOf(s.wallets, t.makerWallet)
               && UserOf(r.wallets, t.takerWallet) == UserOf(s.wallets, t.takerWallet)
    ensures VolumesExact(r)
  {
    forall u, day
      ensures VolumeOf(r.volumes, u, day) == SeqSum(r.trades, VolumeBy(r.wallets, u, day))
    {
      SeqSumSame(s.trades, VolumeBy(s.wallets, u, day), VolumeBy(r.wallets, u, day));
    }
  }

  lemma TouchedKeepsAccounts(env: Env, s: State, w: Wallet, day: Day)
    requires Accounts(env.pair, s)
    ensures Accounts(env.pair, Touched(env, s, w, day))
  {
    SameUsersVolumes(s, Touched(env, s, w, day));
  }

  lemma AdmitKeepsAccounts(pair: Pair, s: State, a: PlaceArgs)
    requires pair.base != pair.quote && WellFormed(s) && a.wallet in s.wallets
    requires Accounts(pair, s)
    ensures Accounts(pair, Admit(pair, s, a))
  {
    AdmitKeepsLocks(pair, s, a);
    AdmitKeepsLog(pair, s, a);
  }

  lemma RestedAside(s: State, x: OrderId, s': State)
    requires x in s.orders && Rested(s, x, s')
    ensures s' == s.(bids := s'.bids, asks := s'.asks)
  {
  }

  lemma StagesKeepAccounts(pair: Pair, s0: State, a: PlaceArgs, at: Tick, s1: State, s2: State)
    requires pair.base != pair.quote && WellFormed(s0) && Accounts(pair, s0)
    requires Stages(pair, s0, a, at, s1, s2)
    ensures Accounts(pair, s2)
  {
    AdmitKeepsAccounts(pair, s0, a);
    MatchKeepsAccounts(pair, s1, s1.orderSeq, at);
  }

  lemma ExecuteKeepsAccounts(pair: Pair, s0: State, a: PlaceArgs, at: Tick, s': State, r: PlaceResult)
    requires pair.base != pair.quote
    requires WellFormed(s0) && a.wallet in s0.wallets && Execute(pair, s0, a, at, s', r)
    requires a.quantity > 0 && (a.typ == Limit ==> a.price > 0)
    requires Accounts(pair, s0)
    ensures Accounts(pair, s')
  {
    var s1, s2 := ExecuteStages(pair, s0, a, at, s', r);
    StagesKeepAccounts(pair, s0, a, at, s1, s2);
    RestedAside(s2, s1.orderSeq, s');
    SameBooksAside(pair, s2, s');
  }

  /** The accounts do not look at the books. */
  lemma SameBooksAside(pair: Pair, s: State, r: State)
    requires r == s.(bids := r.bids, asks := r.asks)
    ensures Accounts(pair, s) ==> Accounts(pair, r)
  {
    if Accounts(pair, s) {
      SameUsersVolumes(s, r);
    }
  }

  lemma AcceptedKeepsAccounts(env: Env, s: State, a: PlaceArgs, at: Tick, s0: State, s': State, r: PlaceResult)
    requires env.Sound() && Accepted(env, s, a, at, s0, s', r) && Accounts(env.pair, s)
    ensures Accounts(env.pair, s')
  {
    TouchedKeepsAccounts(env, s, s.wallets[a.wallet], at.day);
    ExecuteKeepsAccounts(env.pair, s0, a, at, s', r);
  }

  lemma PlaceKeepsAccounts(env: Env, s: State, a: PlaceArgs, at: Tick, s': State, r: PlaceResult)
    requires WellFormed(s) && env.Sound() && Place(env, s, a, at, s', r) && Accounts(env.pair, s)
    ensures Accounts(env.pair, s')
  {
    if r.Placed? {
      var s0 := PlaceIsAccepted(env, s, a, at, s', r);
      AcceptedKeepsAccounts(env, s, a, at, s0, s', r);
    } else {
      PlaceRejected(env, s, a, at, s', r);
      if s' != s { TouchedKeepsAccounts(env, s, s.wallets[a.wallet], at.day); }
    }
  }

  // ---- Cancelling ----

  lemma CancelRelocks(pair: Pair, s: State, id: OrderId, w: WalletId)
    requires Linked(s) && CancelError(s, id, w).None?
    ensures var o := s.orders[id];
            Relocked(s, Cancel(pair, s, id, w).0, id, o.(status := Cancelled),
                     LockDenom(pair, o.side), -LockAmount(o.side, o.price, o.remaining))
  {
  }

  lemma CancelKeepsLocks(pair: Pair, s: State, id: OrderId, w: WalletId)
    requires pair.base != pair.quote && WellFormed(s) && CancelError(s, id, w).None?
    requires BaseLocksExact(pair, s) && QuoteLocksExact(pair, s) && LockCover(pair, s)
    ensures BaseLocksExact(pair, Cancel(pair, s, id, w).0) && QuoteLocksExact(pair, Cancel(pair, s, id, w).0)
    ensures LockCover(pair, Cancel(pair, s, id, w).0)
  {
    assert OrderOk(s.orders[id]);
    CancelRelocks(pair, s, id, w);
    CancelledKeepsLocks(pair, s, Cancel(pair, s, id, w).0, id);
  }

  /** What cancelling an order takes off each sum is what it releases. */
  lemma CancelShares(pair: Pair, o: Order, w: WalletId)
    requires pair.base != pair.quote && o.Active()
    ensures var o', d, x := o.(status := Cancelled), LockDenom(pair, o.side), -LockAmount(o.side, o.price, o.remaining);
            && SellRemaining(w)(o') - SellRemaining(w)(o) == (if w == o.wallet && d == pair.base then x else 0)
            && LockTaken(w)(o') - LockTaken(w)(o) == (if w == o.wallet && d == pair.quote then x else 0)
            && BuyCover(w)(o') - BuyCover(w)(o) == (if w == o.wallet && d == pair.quote then x else 0)
  {
  }

  lemma CancelledKeepsLocks(pair: Pair, s: State, r: State, id: OrderId)
    requires pair.base != pair.quote && id in s.orders && s.orders[id].Active() && r.trades == s.trades
    requires BaseLocksExact(pair, s) && QuoteLocksExact(pair, s) && LockCover(pair, s)
    requires var o := s.orders[id];
             Relocked(s, r, id, o.(status := Cancelled), LockDenom(pair, o.side), -LockAmount(o.side, o.price, o.remaining))
    ensures BaseLocksExact(pair, r) && QuoteLocksExact(pair, r) && LockCover(pair, r)
  {
    var o := s.orders[id];
    var d, x := LockDenom(pair, o.side), -LockAmount(o.side, o.price, o.remaining);
    forall w
      ensures SellRemaining(w)(o.(status := Cancelled)) - SellRemaining(w)(o) == if w == o.wallet && d == pair.base then x else 0
      ensures LockTaken(w)(o.(status := Cancelled)) - LockTaken(w)(o) == if w == o.wallet && d == pair.quote then x else 0
      ensures BuyCover(w)(o.(status := Cancelled)) - BuyCover(w)(o) == if w == o.wallet && d == pair.quote then x else 0
    {
      CancelShares(pair, o, w);
    }
    RelockedBase(pair, s, r, id, o.(status := Cancelled), d, x);
    RelockedQuote(pair, s, r, id, o.(status := Cancelled), d, x);
    RelockedCover(pair, s, r, id, o.(status := Cancelled), d, x);
  }

  lemma CancelKeepsLog(pair: Pair, s: State, id: OrderId, w: WalletId)
    requires WellFormed(s) && CancelError(s, id, w).None?
    requires FilledExact(s) && TradesValid(pair, s) && VolumesExact(s)
    ensures var r := Cancel(pair, s, id, w).0; FilledExact(r) && TradesValid(pair, r) && VolumesExact(r)
  {
    var r := Cancel(pair, s, id, w).0;
    assert r.orders == s.orders[id := s.orders[id].(status := Cancelled)];
    forall t | t in s.trades ensures TradeValid(pair, r.orders, t) {
      assert TradeValid(pair, s.orders, t);
    }
    SameUsersVolumes(s, r);
  }

  // ---- Balances stay when an order is admitted or cancelled ----

  ghost predicate SameBalances(s: State, r: State) {
    && r.wallets.Keys == s.wallets.Keys
    && forall w :: w in s.wallets ==> r.wallets[w].balances == s.wallets[w].balances
  }

  lemma AdmitBalances(pair: Pair, s: State, a: PlaceArgs)
    requires a.wallet in s.wallets
    ensures SameBalances(s, Admit(pair, s, a))
  {
  }

  lemma CancelBalances(pair: Pair, s: State, id: OrderId, w: WalletId)
    requires Linked(s)
    ensures SameBalances(s, Cancel(pair, s, id, w).0)
  {
  }

  // ---- Wallet operations ----

  /** Only balances, standings or new empty wallets. */
  ghost predicate WalletsOnly(s: State, r: State) {
    && r == s.(wallets := r.wallets, walletSeq := r.walletSeq)
    && s.wallets.Keys <= r.wallets.Keys
    && (forall w :: w in s.wallets ==> r.wallets[w].locked == s.wallets[w].locked && r.wallets[w].user == s.wallets[w].user)
    && (forall w :: w in r.wallets && w !in s.wallets ==> r.wallets[w].locked == map[])
  }

  lemma NoOrdersNoSums(pair: Pair, s: State, w: WalletId)
    requires Linked(s) && TradesValid(pair, s) && w !in s.wallets
    ensures Sum(s.orders, SellRemaining(w)) == 0 && Sum(s.orders, BuyCover(w)) == 0
    ensures Sum(s.orders, LockTaken(w)) == 0 && SeqSum(s.trades, Paid(w)) == 0
  {
    SumZero(s.orders, SellRemaining(w));
    SumZero(s.orders, BuyCover(w));
    SumZero(s.orders, LockTaken(w));
    forall t | t in s.trades ensures Paid(w)(t) == 0 {
      assert TradeValid(pair, s.orders, t);
    }
    SeqSumZero(s.trades, Paid(w));
  }

  lemma WalletsOnlyKeepsAccounts(pair: Pair, s: State, r: State)
    requires WellFormed(s) && WalletsOnly(s, r) && Accounts(pair, s)
    ensures Accounts(pair, r)
  {
    forall w | w in r.wallets && w !in s.wallets
      ensures Sum(s.orders, SellRemaining(w)) == 0 && Sum(s.orders, BuyCover(w)) == 0
      ensures Sum(s.orders, LockTaken(w)) == 0 && SeqSum(s.trades, Paid(w)) == 0
    {
      NoOrdersNoSums(pair, s, w);
    }
    forall t | t in s.trades ensures t.makerWallet in s.wallets && t.takerWallet in s.wallets {
      assert TradeValid(pair, s.orders, t);
    }
    SameUsersVolumes(s, r);
  }

  lemma CreateWalletsOnly(env: Env, s: State, user: UserId)
    requires WellFormed(s)
    ensures WalletsOnly(s, CreateWallet(env, s, user).0)
  {
  }

  lemma DepositWalletsOnly(s: State, w: WalletId, d: Denom, amount: int)
    ensures WalletsOnly(s, Deposit(s, w, d, amount).0)
  {
  }

  lemma WithdrawWalletsOnly(s: State, w: WalletId, d: Denom, amount: int)
    ensures WalletsOnly(s, Withdraw(s, w, d, amount).0)
  {
  }

  lemma StandingWalletsOnly(s: State, w: WalletId, tier: Tier, active: bool)
    ensures WalletsOnly(s, SetStanding(s, w, tier, active))
  {
  }

  // ---- Every step ----

  /** In every step the locks, covers, log and volumes stay in agreement. */
  lemma NextKeepsAccounts(env: Env, s: State, e: Event, s': State)
    requires WellFormed(s) && env.Sound() && Next(env, s, e, s') && Accounts(env.pair, s)
    ensures Accounts(env.pair, s')
  {
    match e
    case PlaceEv(a, at) =>
      var r :| Place(env, s, a, at, s', r);
      PlaceKeepsAccounts(env, s, a, at, s', r);
    case CancelEv(id, w) => CancelKeepsAccounts(env.pair, s, id, w);
    case ReloadEv => SameBooksAside(env.pair, s, s');
    case CreateWalletEv(user) =>
      CreateWalletsOnly(env, s, user);
      WalletsOnlyKeepsAccounts(env.pair, s, s');
    case DepositEv(w, d, amount) =>
      DepositWalletsOnly(s, w, d, amount);
      WalletsOnlyKeepsAccounts(env.pair, s, s');
    case WithdrawEv(w, d, amount) =>
      WithdrawWalletsOnly(s, w, d, amount);
      WalletsOnlyKeepsAccounts(env.pair, s, s');
    case StandingEv(w, tier, active) =>
      StandingWalletsOnly(s, w, tier, active);
      WalletsOnlyKeepsAccounts(env.pair, s, s');
  }

  lemma CancelKeepsAccounts(pair: Pair, s: State, id: OrderId, w: WalletId)
    requires pair.base != pair.quote && WellFormed(s) && Accounts(pair, s)
    ensures Accounts(pair, Cancel(pair, s, id, w).0)
  {
    if CancelError(s, id, w).None? {
      CancelKeepsLocks(pair, s, id, w);
      CancelKeepsLog(pair, s, id, w);
    }
  }

  // ---- Conservation ----

  /** What an event brings into the exchange, or takes out of it: deposits to active wallets, and withdrawals of no
      more than an active wallet has free. */
  function Flow(s: State, e: Event, d: Denom): int {
    match e
    case DepositEv(w, x, amount) => if x == d && w in s.wallets && s.wallets[w].active then amount else 0
    case WithdrawEv(w, x, amount) =>
      if x == d && w in s.wallets && s.wallets[w].active
         && amount <= s.wallets[w].Balance(d) - s.wallets[w].Locked(d)
      then -amount else 0
    case _ => 0
  }

  lemma AdmitKeepsHoldings(pair: Pair, s: State, a: PlaceArgs, d: Denom)
    requires a.wallet in s.wallets
    ensures Holdings(pair, Admit(pair, s, a), d) == Holdings(pair, s, d)
  {
    SumPut(s.wallets, a.wallet, Admit(pair, s, a).wallets[a.wallet], BalanceIn(d));
  }

  lemma StagesKeepHoldings(pair: Pair, s0: State, a: PlaceArgs, at: Tick, s1: State, s2: State, d: Denom)
    requires pair.base != pair.quote && Stages(pair, s0, a, at, s1, s2)
    ensures Holdings(pair, s2, d) == Holdings(pair, s0, d)
  {
    AdmitKeepsHoldings(pair, s0, a, d);
    MatchKeepsHoldings(pair, s1, s1.orderSeq, at, d);
  }

  lemma AcceptedKeepsHoldings(env: Env, s: State, a: PlaceArgs, at: Tick, s0: State, s': State, r: PlaceResult,
      d: Denom)
    requires env.Sound() && Accepted(env, s, a, at, s0, s', r)
    ensures Holdings(env.pair, s', d) == Holdings(env.pair, s, d)
  {
    var s1, s2 := ExecuteStages(env.pair, s0, a, at, s', r);
    StagesKeepHoldings(env.pair, s0, a, at, s1, s2, d);
    RestedAside(s2, s1.orderSeq, s');
    SameHoldings(env.pair, s2, s', d);
    SameHoldings(env.pair, s, s0, d);
  }

  lemma SameHoldings(pair: Pair, s: State, r: State, d: Denom)
    requires r.wallets == s.wallets && r.trades == s.trades
    ensures Holdings(pair, r, d) == Holdings(pair, s, d)
  {
  }

  lemma PlaceKeepsHoldings(env: Env, s: State, a: PlaceArgs, at: Tick, s': State, r: PlaceResult, d: Denom)
    requires WellFormed(s) && env.Sound() && Place(env, s, a, at, s', r)
    ensures Holdings(env.pair, s', d) == Holdings(env.pair, s, d)
  {
    if r.Placed? {
      var s0 := PlaceIsAccepted(env, s, a, at, s', r);
      AcceptedKeepsHoldings(env, s, a, at, s0, s', r, d);
    } else {
      PlaceRejected(env, s, a, at, s', r);
    }
  }

  /** One wallet changes. */
  lemma OneWallet(pair: Pair, s: State, r: State, w: WalletId, d: Denom)
    requires r.trades == s.trades && w in r.wallets && r.wallets == s.wallets[w := r.wallets[w]]
    ensures Holdings(pair, r, d)
         == Holdings(pair, s, d) + r.wallets[w].Balance(d) - (if w in s.wallets then s.wallets[w].Balance(d) else 0)
  {
    SumPut(s.wallets, w, r.wallets[w], BalanceIn(d));
  }

  /** Every step changes what the exchange holds of a denomination by exactly what came in or went out. */
  lemma NextHoldings(env: Env, s: State, e: Event, s': State, d: Denom)
    requires WellFormed(s) && env.Sound() && Next(env, s, e, s')
    ensures Holdings(env.pair, s', d) == Holdings(env.pair, s, d) + Flow(s, e, d)
  {
    match e
    case PlaceEv(a, at) =>
      var r :| Place(env, s, a, at, s', r);
      PlaceKeepsHoldings(env, s, a, at, s', r, d);
    case CancelEv(id, w) =>
      if CancelError(s, id, w).None? { OneWallet(env.pair, s, s', w, d); }
    case CreateWalletEv(user) =>
      if CreateWallet(env, s, user).1.None? { OneWallet(env.pair, s, s', s.walletSeq + 1, d); }
    case DepositEv(w, x, amount) =>
      if Deposit(s, w, x, amount).1.None? { OneWallet(env.pair, s, s', w, d); }
    case WithdrawEv(w, x, amount) =>
      if Withdraw(s, w, x, amount).1.None? { OneWallet(env.pair, s, s', w, d); }
    case StandingEv(w, tier, active) =>
      if w in s.wallets { OneWallet(env.pair, s, s', w, d); }
    case ReloadEv =>
  }

  // ---- Wallets that only place limit buys never overpay ----

  /** The wallet never placed a market buy. */
  ghost predicate NoMarketBuys(orders: Orders, w: WalletId) {
    forall id :: id in orders && orders[id].wallet == w && orders[id].side == Buy ==> orders[id].typ == Limit
  }

  lemma LimitBuyersNeverOverpay(pair: Pair, s: State, w: WalletId)
    requires WellFormed(s) && TradesValid(pair, s) && NoMarketBuys(s.orders, w)
    ensures NoOverpay(s.orders, s.trades, w)
  {
    forall id | id in s.orders && s.orders[id].wallet == w && s.orders[id].side == Buy
      ensures s.orders[id].price >= 0
    {
      assert OrderOk(s.orders[id]);
    }
    forall t | t in s.trades && Buyer(t) == w && BuyOrder(t) in s.orders
      ensures t.price <= s.orders[BuyOrder(t)].price
    {
      assert TradeValid(pair, s.orders, t);
    }
  }
}
