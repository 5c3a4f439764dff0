/** Deposits and prices that are not negative keep every wallet solvent up to the fees it was charged as
    a buyer. */
module ExchangeSolvency {
  import opened Sums
  import opened Amounts
  import opened ExchangeTypes
  import opened ExchangeState
  import opened ExchangeWellFormed
  import opened ExchangeMoney
  import opened ExchangeLedger
  import opened ExchangeInvariants
  import opened ExchangeBooks

  /** No deposit is negative and no order names a negative price. */
  predicate Sane(e: Event) {
    match e
    case DepositEv(_, _, amount) => amount >= 0
    case PlaceEv(a, _) => a.price >= 0
    case _ => true
  }

  ghost predicate SolventState(env: Env, s: State) {
    && TradesValid(env.pair, s)
    && PricesNonNegative(s.orders)
    && Solvent(env.pair, s)
  }

  /** The fees charged to a wallet as a buyer never sum to less than nothing. */
  lemma FeesNonNegative(env: Env, s: State, w: WalletId)
    requires env.Sound() && TradesValid(env.pair, s) && PricesNonNegative(s.orders)
    ensures SeqSum(s.trades, FeePaidAsBuyer(w)) >= 0
  {
    forall t | t in s.trades ensures FeePaidAsBuyer(w)(t) >= 0 {
      assert TradeValid(env.pair, s.orders, t);
      FeeWithinValue(t.price, t.quantity, env.pair.makerFee);
      FeeWithinValue(t.price, t.quantity, env.pair.takerFee);
    }
    SeqSumNonNegative(s.trades, FeePaidAsBuyer(w));
  }

  /** Availability that only grows, or that ends up non-negative, keeps a state solvent. */
  lemma AvailableKeepsSolvent(env: Env, s: State, r: State)
    requires env.Sound() && TradesValid(env.pair, s) && PricesNonNegative(s.orders) && Solvent(env.pair, s)
    requires r.trades == s.trades
    requires forall w :: w in r.wallets ==>
               && (r.wallets[w].Available(env.pair.quote) >= 0
                   || (w in s.wallets && r.wallets[w].Available(env.pair.quote) >= s.wallets[w].Available(env.pair.quote)))
               && (r.wallets[w].Available(env.pair.base) >= 0
                   || (w in s.wallets && r.wallets[w].Available(env.pair.base) >= s.wallets[w].Available(env.pair.base)))
    ensures Solvent(env.pair, r)
  {
    forall w | w in r.wallets
      ensures r.wallets[w].Available(env.pair.quote) >= -SeqSum(r.trades, FeePaidAsBuyer(w))
    {
      FeesNonNegative(env, s, w);
    }
  }

  lemma AdmitKeepsSolvent(env: Env, s: State, a: PlaceArgs)
    requires env.Sound() && TradesValid(env.pair, s) && PricesNonNegative(s.orders) && Solvent(env.pair, s)
    requires a.wallet in s.wallets
    requires LockAmount(a.side, a.price, a.quantity) <= s.wallets[a.wallet].Available(LockDenom(env.pair, a.side))
    ensures Solvent(env.pair, Admit(env.pair, s, a))
  {
    AvailableKeepsSolvent(env, s, Admit(env.pair, s, a));
  }

  lemma StagesKeepSolvent(env: Env, s0: State, a: PlaceArgs, at: Tick, s1: State, s2: State)
    requires env.Sound() && SolventState(env, s0) && Stages(env.pair, s0, a, at, s1, s2) && a.price >= 0
    requires LockAmount(a.side, a.price, a.quantity) <= s0.wallets[a.wallet].Available(LockDenom(env.pair, a.side))
    ensures Solvent(env.pair, s2)
  {
    AdmitKeepsSolvent(env, s0, a);
    MatchKeepsSolvent(env, s1, s1.orderSeq, at);
  }

  lemma SameSolvent(env: Env, s: State, r: State)
    requires r.wallets == s.wallets && r.trades == s.trades
    ensures Solvent(env.pair, s) ==> Solvent(env.pair, r)
  {
  }

  lemma SameSolventState(env: Env, s: State, r: State)
    requires r.wallets == s.wallets && r.trades == s.trades && r.orders == s.orders
    ensures SolventState(env, s) ==> SolventState(env, r)
  {
  }

  lemma ExecuteKeepsSolvent(env: Env, s0: State, a: PlaceArgs, at: Tick, s': State, r: PlaceResult)
    requires env.Sound() && WellFormed(s0) && a.wallet in s0.wallets && SolventState(env, s0) && a.price >= 0
    requires a.quantity > 0 && (a.typ == Limit ==> a.price > 0)
    requires LockAmount(a.side, a.price, a.quantity) <= s0.wallets[a.wallet].Available(LockDenom(env.pair, a.side))
    requires Execute(env.pair, s0, a, at, s', r)
    ensures Solvent(env.pair, s')
  {
    var s1, s2 := ExecuteStages(env.pair, s0, a, at, s', r);
    StagesKeepSolvent(env, s0, a, at, s1, s2);
    RestedAside(s2, s1.orderSeq, s');
    SameSolvent(env, s2, s');
  }

  lemma AcceptedKeepsSolvent(env: Env, s: State, a: PlaceArgs, at: Tick, s0: State, s': State, r: PlaceResult)
    requires env.Sound() && Accepted(env, s, a, at, s0, s', r) && SolventState(env, s) && a.price >= 0
    ensures Solvent(env.pair, s')
  {
    SameSolventState(env, s, s0);
    ExecuteKeepsSolvent(env, s0, a, at, s', r);
  }

  lemma PlaceKeepsSolvent(env: Env, s: State, a: PlaceArgs, at: Tick, s': State, r: PlaceResult)
    requires WellFormed(s) && env.Sound() && Place(env, s, a, at, s', r) && SolventState(env, s) && a.price >= 0
    ensures Solvent(env.pair, s') && PricesNonNegative(s'.orders)
  {
    if r.Placed? {
      var s0 := PlaceIsAccepted(env, s, a, at, s', r);
      AcceptedKeepsSolvent(env, s, a, at, s0, s', r);
      PlaceJoined(env, s, a, at, s', r);
      JoinedPrices(s, a, r.id, s');
    } else {
      PlaceRejected(env, s, a, at, s', r);
    }
  }

  lemma JoinedPrices(s: State, a: PlaceArgs, x: OrderId, s': State)
    requires Joined(s, a, x, s') && PricesNonNegative(s.orders) && a.price >= 0
    ensures PricesNonNegative(s'.orders)
  {
    forall id | id in s'.orders ensures s'.orders[id].price >= 0 {
      assert id == x || Kept(s.orders[id], s'.orders[id]);
    }
  }

  lemma CancelKeepsSolvent(env: Env, s: State, id: OrderId, w: WalletId)
    requires WellFormed(s) && env.Sound() && SolventState(env, s)
    ensures Solvent(env.pair, Cancel(env.pair, s, id, w).0)
    ensures PricesNonNegative(Cancel(env.pair, s, id, w).0.orders)
  {
    if CancelError(s, id, w).None? {
      var o := s.orders[id];
      assert OrderOk(o);
      QuoteValueNonNegative(o.price, o.remaining);
      CancelRelocks(env.pair, s, id, w);
      CancelBalances(env.pair, s, id, w);
      CancelAvailable(env, s, Cancel(env.pair, s, id, w).0, id);
    }
  }

  lemma CancelAvailable(env: Env, s: State, r: State, id: OrderId)
    requires env.Sound() && SolventState(env, s) && id in s.orders && r.trades == s.trades
    requires var o := s.orders[id];
             && LockAmount(o.side, o.price, o.remaining) >= 0
             && Relocked(s, r, id, o.(status := Cancelled), LockDenom(env.pair, o.side), -LockAmount(o.side, o.price, o.remaining))
    requires SameBalances(s, r)
    ensures Solvent(env.pair, r) && PricesNonNegative(r.orders)
  {
    AvailableKeepsSolvent(env, s, r);
  }

  lemma CreateKeepsSolvent(env: Env, s: State, user: UserId)
    requires WellFormed(s) && env.Sound() && SolventState(env, s)
    ensures Solvent(env.pair, CreateWallet(env, s, user).0)
  {
    AvailableKeepsSolvent(env, s, CreateWallet(env, s, user).0);
  }

  lemma DepositKeepsSolvent(env: Env, s: State, w: WalletId, d: Denom, amount: int)
    requires env.Sound() && SolventState(env, s) && amount >= 0
    ensures Solvent(env.pair, Deposit(s, w, d, amount).0)
  {
    AvailableKeepsSolvent(env, s, Deposit(s, w, d, amount).0);
  }

  lemma WithdrawKeepsSolvent(env: Env, s: State, w: WalletId, d: Denom, amount: int)
    requires env.Sound() && SolventState(env, s)
    ensures Solvent(env.pair, Withdraw(s, w, d, amount).0)
  {
    AvailableKeepsSolvent(env, s, Withdraw(s, w, d, amount).0);
  }

  lemma StandingKeepsSolvent(env: Env, s: State, w: WalletId, tier: Tier, active: bool)
    requires env.Sound() && SolventState(env, s)
    ensures Solvent(env.pair, SetStanding(s, w, tier, active))
  {
    AvailableKeepsSolvent(env, s, SetStanding(s, w, tier, active));
  }

  /** Every step of a non-negative event keeps every wallet solvent up to its fees. */
  lemma NextKeepsSolvent(env: Env, s: State, e: Event, s': State)
    requires WellFormed(s) && env.Sound() && Sane(e) && Next(env, s, e, s') && SolventState(env, s)
    ensures PricesNonNegative(s'.orders) && Solvent(env.pair, s')
  {
    match e
    case PlaceEv(a, at) =>
      var r :| Place(env, s, a, at, s', r);
      PlaceKeepsSolvent(env, s, a, at, s', r);
    case CancelEv(id, w) => CancelKeepsSolvent(env, s, id, w);
    case ReloadEv => SameSolventState(env, s, s');
    case CreateWalletEv(user) => CreateKeepsSolvent(env, s, user);
    case DepositEv(w, d, amount) => DepositKeepsSolvent(env, s, w, d, amount);
    case WithdrawEv(w, d, amount) => WithdrawKeepsSolvent(env, s, w, d, amount);
    case StandingEv(w, tier, active) => StandingKeepsSolvent(env, s, w, tier, active);
  }
}
