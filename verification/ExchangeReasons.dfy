/** Why an operation is refused: each reason names what is missing, and making up for it lets the same request through
    or meets a later obstacle. */
module ExchangeReasons {
  import opened Sums
  import opened Amounts
  import opened ExchangeTypes
  import opened ExchangeState
  import opened ExchangeWellFormed
  import opened ExchangeMoney
  import opened ExchangeLedger

  // ---- Placements ----

  /** How far a placement got that is refused for `e`; a tier can fail it twice, as too low and for want of a limit. */
  function Stage(s: State, w: WalletId, e: Error): nat {
    match e
    case WalletNotFound => 1
    case WalletInactive => 2
    case InsufficientKYC => if w in s.wallets && s.wallets[w].tier == NoTier then 3 else 9
    case TradingDisabled => 4
    case PairNotFound => 5
    case PairInactive => 6
    case BelowMinOrder => 7
    case InvalidPrice => 8
    case DailyLimitExceeded => 10
    case InsufficientBalance => 11
    case _ => 0
  }

  /** A placement may end with this answer. */
  ghost predicate Answered(env: Env, s: State, a: PlaceArgs, at: Tick, r: PlaceResult) {
    WellFormed(s) && exists s' :: Place(env, s, a, at, s', r)
  }

  /** The funds an order asks for: a buy its value in the quote, a sell its units in the base. */
  function Needed(env: Env, a: PlaceArgs): (Denom, int) {
    if a.side == Buy then (env.pair.quote, QuoteValue(a.price, a.quantity)) else (env.pair.base, a.quantity)
  }

  function Missing(env: Env, s: State, a: PlaceArgs): int
    requires a.wallet in s.wallets
  {
    var (d, needed) := Needed(env, a);
    needed - s.wallets[a.wallet].Balance(d) + s.wallets[a.wallet].Locked(d)
  }

  /** The state once what reason `e` names is made up for in the wallet: its standing, its tier, or its funds. */
  function WalletRepaired(env: Env, s: State, a: PlaceArgs, e: Error): State
    requires a.wallet in s.wallets
  {
    var w := s.wallets[a.wallet];
    match e
    case WalletInactive => SetStanding(s, a.wallet, w.tier, true)
    case InsufficientKYC => SetStanding(s, a.wallet, Institutional, w.active)
    case DailyLimitExceeded => SetStanding(s, a.wallet, Institutional, w.active)
    case InsufficientBalance => Deposit(s, a.wallet, Needed(env, a).0, Missing(env, s, a)).0
    case _ => s
  }

  /** The same in the configuration or the pair. */
  function EnvRepaired(env: Env, e: Error): Env {
    match e
    case TradingDisabled => env.(config := env.config.(tradingEnabled := true))
    case PairInactive => env.(pair := env.pair.(active := true))
    case _ => env
  }

  /** The same in the order. */
  function OrderRepaired(env: Env, a: PlaceArgs, e: Error): PlaceArgs {
    match e
    case PairNotFound => a.(pairId := env.pair.id)
    case BelowMinOrder => a.(quantity := env.pair.minOrderSize)
    case InvalidPrice => a.(price := 1)
    case _ => a
  }

  /** The first check that fails. */
  function Obstacle(env: Env, s: State, a: PlaceArgs, day: Day): Option<Error> {
    if EntryError(env, s, a).Some? then EntryError(env, s, a)
    else if LimitError(env, s, s.wallets[a.wallet], a.price, a.quantity, day).Some?
    then LimitError(env, s, s.wallets[a.wallet], a.price, a.quantity, day)
    else FundsError(env.pair, s.wallets[a.wallet], a)
  }

  lemma AnsweredIs(env: Env, s: State, a: PlaceArgs, at: Tick, r: PlaceResult)
    requires Answered(env, s, a, at, r)
    ensures r.Rejected? <==> Obstacle(env, s, a, at.day).Some?
    ensures r.Rejected? ==> r.error == Obstacle(env, s, a, at.day).value
  {
    var s' :| Place(env, s, a, at, s', r);
    PlaceAnswer(env, s, a, at, s', r);
  }

  lemma PlaceAnswer(env: Env, s: State, a: PlaceArgs, at: Tick, s': State, r: PlaceResult)
    requires WellFormed(s) && Place(env, s, a, at, s', r)
    ensures r.Rejected? <==> Obstacle(env, s, a, at.day).Some?
    ensures r.Rejected? ==> r.error == Obstacle(env, s, a, at.day).value
  {
    if r.Placed? { PlaceAccepted(env, s, a, at, s', r); }
  }

  /** Once reason `e` is made up for, the order meets a later obstacle or none. */
  predicate GivesWay(env: Env, s: State, a: PlaceArgs, day: Day, e: Error)
    requires a.wallet in s.wallets
  {
    var s1 := WalletRepaired(env, s, a, e);
    && a.wallet in s1.wallets
    && var next := Obstacle(EnvRepaired(env, e), s1, OrderRepaired(env, a, e), day);
       next.Some? ==> Stage(s1, a.wallet, next.value) > Stage(s, a.wallet, e) > 0
  }

  lemma StandingGivesWay(env: Env, s: State, a: PlaceArgs, day: Day, e: Error)
    requires a.wallet in s.wallets && Obstacle(env, s, a, day) == Some(e)
    requires e == WalletInactive || e == InsufficientKYC || e == DailyLimitExceeded
    ensures GivesWay(env, s, a, day, e)
  {
  }

  lemma TermsGiveWay(env: Env, s: State, a: PlaceArgs, day: Day, e: Error)
    requires a.wallet in s.wallets && Obstacle(env, s, a, day) == Some(e)
    requires e == PairNotFound || e == BelowMinOrder || e == InvalidPrice
    ensures GivesWay(env, s, a, day, e)
  {
  }

  lemma RestGivesWay(env: Env, s: State, a: PlaceArgs, day: Day, e: Error)
    requires a.wallet in s.wallets && Obstacle(env, s, a, day) == Some(e)
    requires e == TradingDisabled || e == PairInactive || e == InsufficientBalance
    ensures GivesWay(env, s, a, day, e)
  {
  }

  lemma ObstacleGivesWay(env: Env, s: State, a: PlaceArgs, day: Day, e: Error)
    requires a.wallet in s.wallets && Obstacle(env, s, a, day) == Some(e)
    ensures GivesWay(env, s, a, day, e)
  {
    if e == WalletInactive || e == InsufficientKYC || e == DailyLimitExceeded {
      StandingGivesWay(env, s, a, day, e);
    } else if e == PairNotFound || e == BelowMinOrder || e == InvalidPrice {
      TermsGiveWay(env, s, a, day, e);
    } else {
      RestGivesWay(env, s, a, day, e);
    }
  }

  /** Every reason an order of an existing wallet is refused for can be made up for: the wallet reactivated, its tier
      raised, trading or the pair turned on, the right pair, the minimum quantity or a positive price asked for, the
      missing funds deposited. The order is then placed, or refused at a later check. */
  lemma RefusalRepaired(env: Env, s: State, a: PlaceArgs, at: Tick, e: Error)
    requires Answered(env, s, a, at, Rejected(e)) && a.wallet in s.wallets
    ensures var s1 := WalletRepaired(env, s, a, e);
            && WellFormed(s1)
            && forall r :: Answered(EnvRepaired(env, e), s1, OrderRepaired(env, a, e), at, r) && r.Rejected? ==>
                 Stage(s1, a.wallet, r.error) > Stage(s, a.wallet, e) > 0
  {
    var s1 := WalletRepaired(env, s, a, e);
    WalletsWellFormed(s, s1);
    AnsweredIs(env, s, a, at, Rejected(e));
    ObstacleGivesWay(env, s, a, at.day, e);
    forall r | Answered(EnvRepaired(env, e), s1, OrderRepaired(env, a, e), at, r) && r.Rejected?
      ensures Stage(s1, a.wallet, r.error) > Stage(s, a.wallet, e) > 0
    {
      AnsweredIs(EnvRepaired(env, e), s1, OrderRepaired(env, a, e), at, r);
    }
  }

  /** An order is refused for want of a wallet exactly when there is none. */
  lemma NoWallet(env: Env, s: State, a: PlaceArgs, at: Tick, r: PlaceResult)
    requires Answered(env, s, a, at, r)
    ensures r == Rejected(WalletNotFound) <==> a.wallet !in s.wallets
  {
    AnsweredIs(env, s, a, at, r);
  }

  /** An order is refused for the daily limit only where there is one and the order would pass it; raised to the tier
      without a limit, its wallet lacks only funds, if anything. */
  lemma LimitRefused(env: Env, s: State, a: PlaceArgs, at: Tick)
    requires Answered(env, s, a, at, Rejected(DailyLimitExceeded))
    ensures a.wallet in s.wallets
    ensures var w := s.wallets[a.wallet];
            && w.tier != NoTier && w.tier != Institutional && env.TierLimit(w.tier) != 0
            && VolumeOf(s.volumes, w.user, at.day) + QuoteValue(a.price, a.quantity) > env.TierLimit(w.tier)
    ensures forall r :: Answered(env, SetStanding(s, a.wallet, Institutional, true), a, at, r) ==>
              r.Placed? || r == Rejected(InsufficientBalance)
  {
    AnsweredIs(env, s, a, at, Rejected(DailyLimitExceeded));
    var s1 := SetStanding(s, a.wallet, Institutional, true);
    forall r | Answered(env, s1, a, at, r) ensures r.Placed? || r == Rejected(InsufficientBalance) {
      AnsweredIs(env, s1, a, at, r);
    }
  }

  /** The tier stands in the way of every order of the wallet. */
  predicate Barred(env: Env, tier: Tier) { tier == NoTier || (tier != Institutional && env.TierLimit(tier) == 0) }

  lemma TierObstacle(env: Env, s: State, a: PlaceArgs, day: Day)
    requires Obstacle(env, s, a, day) == Some(InsufficientKYC)
    ensures a.wallet in s.wallets && Barred(env, s.wallets[a.wallet].tier)
  {
  }

  lemma SameTier(env: Env, s: State, s1: State, a: PlaceArgs, day: Day, later: Day)
    requires Obstacle(env, s, a, day) == Some(InsufficientKYC)
    requires a.wallet in s.wallets && a.wallet in s1.wallets && SameOwner(s.wallets[a.wallet], s1.wallets[a.wallet])
    ensures Obstacle(env, s1, a, later) == Some(InsufficientKYC)
  {
  }

  lemma DepositOwner(s: State, w: WalletId, d: Denom, amount: int, v: WalletId)
    requires v in s.wallets
    ensures v in Deposit(s, w, d, amount).0.wallets
    ensures SameOwner(s.wallets[v], Deposit(s, w, d, amount).0.wallets[v])
  {
  }

  lemma SameAnswer(env: Env, s: State, s1: State, a: PlaceArgs, at: Tick, later: Tick, r: PlaceResult)
    requires Answered(env, s, a, at, Rejected(InsufficientKYC)) && Answered(env, s1, a, later, r)
    requires a.wallet in s.wallets && a.wallet in s1.wallets && SameOwner(s.wallets[a.wallet], s1.wallets[a.wallet])
    ensures r == Rejected(InsufficientKYC)
  {
    AnsweredIs(env, s, a, at, Rejected(InsufficientKYC));
    AnsweredIs(env, s1, a, later, r);
    SameTier(env, s, s1, a, at.day, later.day);
  }

  /** An order is refused for its wallet's tier only where that is the lowest or has no limit to trade within, and then
      no deposit and no other day gets it any other answer. */
  lemma TierRefused(env: Env, s: State, a: PlaceArgs, at: Tick, w: WalletId, d: Denom, amount: int, later: Tick,
      r: PlaceResult)
    requires Answered(env, s, a, at, Rejected(InsufficientKYC))
    requires Answered(env, Deposit(s, w, d, amount).0, a, later, r)
    ensures a.wallet in s.wallets && Barred(env, s.wallets[a.wallet].tier)
    ensures r == Rejected(InsufficientKYC)
  {
    AnsweredIs(env, s, a, at, Rejected(InsufficientKYC));
    TierObstacle(env, s, a, at.day);
    DepositOwner(s, w, d, amount, a.wallet);
    SameAnswer(env, s, Deposit(s, w, d, amount).0, a, at, later, r);
  }

  /** An order refused for want of funds is placed after a deposit exactly when that makes up the missing ones. */
  lemma FundsRefused(env: Env, s: State, a: PlaceArgs, at: Tick, amount: int, r: PlaceResult)
    requires Answered(env, s, a, at, Rejected(InsufficientBalance)) && a.wallet in s.wallets
    requires Answered(env, Deposit(s, a.wallet, Needed(env, a).0, amount).0, a, at, r)
    ensures Missing(env, s, a) > 0
    ensures r == Rejected(InsufficientBalance) <==> amount < Missing(env, s, a)
    ensures r.Placed? <==> amount >= Missing(env, s, a)
  {
    AnsweredIs(env, s, a, at, Rejected(InsufficientBalance));
    AnsweredIs(env, Deposit(s, a.wallet, Needed(env, a).0, amount).0, a, at, r);
  }

  // ---- Withdrawals ----

  /** A withdrawal refused for want of funds goes through after a deposit exactly when that makes up the missing ones;
      one refused to a suspended wallet lacks at most funds once the wallet is reactivated. */
  lemma WithdrawalRepaired(s: State, w: WalletId, d: Denom, amount: int, more: int)
    requires w in s.wallets
    ensures var x := s.wallets[w];
            && (Withdraw(s, w, d, amount).1 == Some(InsufficientBalance) ==>
                  (Withdraw(Deposit(s, w, d, more).0, w, d, amount).1.None?
                   <==> more >= amount - x.Balance(d) + x.Locked(d) > 0))
            && (Withdraw(s, w, d, amount).1 == Some(WalletInactive) ==>
                  Withdraw(SetStanding(s, w, x.tier, true), w, d, amount).1 in {None, Some(InsufficientBalance)})
  {
  }

  // ---- Cancellations ----

  /** A cancellation is refused for an order that does not exist, to anyone but the order's own wallet, for one whose
      trades add up to its quantity, and for one of which that can never happen. */
  lemma CancelAnswer(pair: Pair, s: State, id: OrderId, w: WalletId)
    requires WellFormed(s) && FilledExact(s)
    ensures var e := Cancel(pair, s, id, w).1;
            && (e == Some(OrderNotFound) <==> id !in s.orders)
            && (e == Some(Unauthorized) <==> id in s.orders && s.orders[id].wallet != w)
            && (e == Some(OrderFilled) <==>
                  && id in s.orders && s.orders[id].wallet == w
                  && SeqSum(s.trades, FilledIn(id)) == s.orders[id].quantity)
            && (e == Some(OrderCancelled) ==>
                  && id in s.orders && s.orders[id].wallet == w && !s.orders[id].Active()
                  && SeqSum(s.trades, FilledIn(id)) < s.orders[id].quantity)
            && (e.None? ==> Cancel(pair, Cancel(pair, s, id, w).0, id, w).1 == Some(OrderCancelled))
  {
    if id in s.orders { assert OrderOk(s.orders[id]); }
  }
}
