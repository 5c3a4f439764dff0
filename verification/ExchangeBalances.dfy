/** Each wallet's balance as an equation: what its owner moved in and out, and what its trades moved. */
module ExchangeBalances {
  import opened Sums
  import opened ExchangeTypes
  import opened Matching
  import opened ExchangeState
  import opened ExchangeFills
  import opened ExchangeWellFormed
  import opened ExchangeMoney
  import opened ExchangeInvariants

  function BalanceOf(s: State, w: WalletId, d: Denom): int {
    if w in s.wallets then s.wallets[w].Balance(d) else 0
  }

  /** What trade `t` moves into wallet `w`. */
  function Gained(pair: Pair, w: WalletId, d: Denom): Trade -> int {
    (t: Trade) => BalanceDelta(pair, t, w, d)
  }

  /** What wallet `w` holds that no trade brought it. */
  ghost function Brought(pair: Pair, s: State, w: WalletId, d: Denom): int {
    BalanceOf(s, w, d) - SeqSum(s.trades, Gained(pair, w, d))
  }

  /** What the owner of wallet `w` moves in or out by an event. */
  function FlowOf(s: State, e: Event, w: WalletId, d: Denom): int {
    if (e.DepositEv? || e.WithdrawEv?) && e.w == w then Flow(s, e, d) else 0
  }

  lemma FillKeepsBrought(pair: Pair, s: State, taker: OrderId, f: Fill, at: Tick, w: WalletId, d: Denom)
    requires pair.base != pair.quote && Linked(s) && FillOk(s.orders, taker, f)
    ensures Brought(pair, ApplyFill(pair, s, taker, f, at), w, d) == Brought(pair, s, w, d)
  {
    FillMoves(pair, s, taker, f, at);
    var t := TradeOf(pair, s, taker, f, at);
    SeqSumAppend(s.trades, t, Gained(pair, w, d));
    MovedBalance(pair, s.wallets, t, ApplyFill(pair, s, taker, f, at).wallets, w, d);
  }

  lemma MovedBalance(pair: Pair, ws: Wallets, t: Trade, ws': Wallets, w: WalletId, d: Denom)
    requires Moved(pair, ws, t, ws') && Buyer(t) in ws && Seller(t) in ws
    ensures w in ws ==> w in ws' && ws'[w].Balance(d) == ws[w].Balance(d) + BalanceDelta(pair, t, w, d)
    ensures w !in ws ==> w !in ws' && BalanceDelta(pair, t, w, d) == 0
  {
  }

  lemma {:induction false} FillsKeepBrought(pair: Pair, s: State, taker: OrderId, fills: seq<Fill>, at: Tick,
      w: WalletId, d: Denom)
    requires pair.base != pair.quote
    requires Linked(s) && taker in s.orders && FillsOk(s.orders, taker, fills)
    requires forall f :: f in fills ==> f.maker in s.orders
    ensures Brought(pair, ApplyFills(pair, s, taker, fills, at), w, d) == Brought(pair, s, w, d)
    decreases |fills|
  {
    if fills != [] {
      FillEffect(pair, s, taker, fills[0], at);
      FillKeepsBrought(pair, s, taker, fills[0], at, w, d);
      FillsKeepBrought(pair, ApplyFill(pair, s, taker, fills[0], at), taker, fills[1..], at, w, d);
    }
  }

  lemma SameBrought(pair: Pair, s: State, r: State, w: WalletId, d: Denom)
    requires r.trades == s.trades && BalanceOf(r, w, d) == BalanceOf(s, w, d)
    ensures Brought(pair, r, w, d) == Brought(pair, s, w, d)
  {
  }

  lemma MatchKeepsBrought(pair: Pair, s: State, x: OrderId, at: Tick, w: WalletId, d: Denom)
    requires pair.base != pair.quote && Ready(s, x) && s.orders[x].status == Open
    ensures Brought(pair, Match(pair, s, x, at), w, d) == Brought(pair, s, w, d)
  {
    MatchRestates(pair, s, x, at);
    FillsKeepBrought(pair, s, x, FillsOf(s, x), at, w, d);
    SameBrought(pair, ApplyFills(pair, s, x, FillsOf(s, x), at), Match(pair, s, x, at), w, d);
  }

  lemma AdmitKeepsBrought(pair: Pair, s: State, a: PlaceArgs, w: WalletId, d: Denom)
    requires a.wallet in s.wallets
    ensures Brought(pair, Admit(pair, s, a), w, d) == Brought(pair, s, w, d)
  {
    SameBrought(pair, s, Admit(pair, s, a), w, d);
  }

  lemma StagesKeepBrought(pair: Pair, s0: State, a: PlaceArgs, at: Tick, s1: State, s2: State, w: WalletId, d: Denom)
    requires pair.base != pair.quote && Stages(pair, s0, a, at, s1, s2)
    ensures Brought(pair, s2, w, d) == Brought(pair, s0, w, d)
  {
    AdmitKeepsBrought(pair, s0, a, w, d);
    MatchKeepsBrought(pair, s1, s1.orderSeq, at, w, d);
  }

  lemma PlaceKeepsBrought(env: Env, s: State, a: PlaceArgs, at: Tick, s': State, r: PlaceResult, w: WalletId, d: Denom)
    requires WellFormed(s) && env.Sound() && Place(env, s, a, at, s', r)
    ensures Brought(env.pair, s', w, d) == Brought(env.pair, s, w, d)
  {
    if r.Placed? {
      var s0 := PlaceIsAccepted(env, s, a, at, s', r);
      AcceptedKeepsBrought(env.pair, s0, a, at, s', r, w, d);
      SameMoney(env.pair, s, s0, w, d);
    } else {
      PlaceRejected(env, s, a, at, s', r);
    }
  }

  lemma AcceptedKeepsBrought(pair: Pair, s0: State, a: PlaceArgs, at: Tick, s': State, r: PlaceResult,
      w: WalletId, d: Denom)
    requires pair.base != pair.quote
    requires WellFormed(s0) && a.wallet in s0.wallets && Execute(pair, s0, a, at, s', r)
    requires a.quantity > 0 && (a.typ == Limit ==> a.price > 0)
    ensures Brought(pair, s', w, d) == Brought(pair, s0, w, d)
  {
    var s1, s2 := ExecuteStages(pair, s0, a, at, s', r);
    StagesKeepBrought(pair, s0, a, at, s1, s2, w, d);
    RestedAside(s2, s1.orderSeq, s');
    SameMoney(pair, s2, s', w, d);
  }

  lemma SameMoney(pair: Pair, s: State, r: State, w: WalletId, d: Denom)
    requires r.wallets == s.wallets && r.trades == s.trades
    ensures Brought(pair, r, w, d) == Brought(pair, s, w, d)
  {
  }

  lemma WalletsChange(pair: Pair, s: State, r: State, w: WalletId, d: Denom)
    requires r.trades == s.trades
    ensures Brought(pair, r, w, d) == Brought(pair, s, w, d) + BalanceOf(r, w, d) - BalanceOf(s, w, d)
  {
  }

  lemma PaidIn(s: State, x: WalletId, c: Denom, amount: int, w: WalletId, d: Denom)
    ensures var s' := Deposit(s, x, c, amount).0;
            && s'.trades == s.trades
            && BalanceOf(s', w, d) == BalanceOf(s, w, d) + FlowOf(s, DepositEv(x, c, amount), w, d)
  {
  }

  lemma PaidOut(s: State, x: WalletId, c: Denom, amount: int, w: WalletId, d: Denom)
    ensures var s' := Withdraw(s, x, c, amount).0;
            && s'.trades == s.trades
            && BalanceOf(s', w, d) == BalanceOf(s, w, d) + FlowOf(s, WithdrawEv(x, c, amount), w, d)
  {
  }

  /** Every step changes what a wallet holds that no trade brought it by exactly what its owner moved. */
  lemma NextBrought(env: Env, s: State, e: Event, s': State, w: WalletId, d: Denom)
    requires WellFormed(s) && env.Sound() && Next(env, s, e, s')
    ensures Brought(env.pair, s', w, d) == Brought(env.pair, s, w, d) + FlowOf(s, e, w, d)
  {
    match e
    case PlaceEv(a, at) =>
      var r :| Place(env, s, a, at, s', r);
      PlaceKeepsBrought(env, s, a, at, s', r, w, d);
    case DepositEv(x, c, amount) =>
      PaidIn(s, x, c, amount, w, d);
      WalletsChange(env.pair, s, s', w, d);
    case WithdrawEv(x, c, amount) =>
      PaidOut(s, x, c, amount, w, d);
      WalletsChange(env.pair, s, s', w, d);
    case _ => WalletsChange(env.pair, s, s', w, d);
  }
}
