/** The trades one placement makes: what its taker pays, who can be a maker, and how large they are. */
module ExchangeTrades {
  import opened Sums
  import opened Amounts
  import opened ExchangeTypes
  import opened Matching
  import opened ExchangeState
  import opened ExchangeFills
  import opened ExchangeWellFormed
  import opened ExchangeMoney
  import opened ExchangeLedger
  import opened ExchangeInvariants

  // ---- Trades and fills ----

  /** Trade `t` records fill `f` of `taker`. */
  predicate Records(pair: Pair, taker: OrderId, f: Fill, t: Trade) {
    && t.takerOrder == taker && t.makerOrder == f.maker
    && t.price == f.price && t.quantity == f.qty
    && t.takerFee == FeeOn(f.price, f.qty, pair.takerFee)
    && t.makerFee == FeeOn(f.price, f.qty, pair.makerFee)
  }

  /** Trade `t` carries its number, day and height. */
  predicate Stamped(t: Trade, id: nat, at: Tick) { t.id == id && t.day == at.day && t.height == at.height }

  /** Trades that record `fills` in order, numbered from `n` on. */
  predicate Recorded(pair: Pair, taker: OrderId, fills: seq<Fill>, n: nat, at: Tick, trades: seq<Trade>) {
    && |trades| == |fills|
    && forall i :: 0 <= i < |fills| ==> Records(pair, taker, fills[i], trades[i]) && Stamped(trades[i], n + i + 1, at)
  }

  /** The same, one fill after the other. */
  predicate Logged(pair: Pair, taker: OrderId, fills: seq<Fill>, n: nat, at: Tick, trades: seq<Trade>) {
    if fills == [] then trades == []
    else
      && trades != [] && Records(pair, taker, fills[0], trades[0]) && Stamped(trades[0], n + 1, at)
      && Logged(pair, taker, fills[1..], n + 1, at, trades[1..])
  }

  lemma {:induction false} LoggedIsRecorded(pair: Pair, taker: OrderId, fills: seq<Fill>, n: nat, at: Tick,
      trades: seq<Trade>)
    requires Logged(pair, taker, fills, n, at, trades)
    ensures Recorded(pair, taker, fills, n, at, trades)
    decreases |fills|
  {
    if fills != [] {
      LoggedIsRecorded(pair, taker, fills[1..], n + 1, at, trades[1..]);
      forall i | 0 < i < |fills|
        ensures Records(pair, taker, fills[i], trades[i]) && Stamped(trades[i], n + i + 1, at)
      {
        assert fills[i] == fills[1..][i - 1] && trades[i] == trades[1..][i - 1];
      }
    }
  }

  lemma FillTrade(pair: Pair, s: State, taker: OrderId, f: Fill, at: Tick) returns (t: Trade)
    requires Linked(s) && taker in s.orders && f.maker in s.orders
    ensures ApplyFill(pair, s, taker, f, at).trades == s.trades + [t]
    ensures ApplyFill(pair, s, taker, f, at).tradeSeq == s.tradeSeq + 1
    ensures Records(pair, taker, f, t) && Stamped(t, s.tradeSeq + 1, at)
  {
    t := TradeOf(pair, s, taker, f, at);
  }

  /** What the log of `s` lacks of a longer one. */
  function Newer(s: State, log: seq<Trade>): seq<Trade> { if |s.trades| <= |log| then log[|s.trades|..] else [] }

  lemma LoggedFirst(pair: Pair, taker: OrderId, fills: seq<Fill>, at: Tick, s: State, s1: State, t: Trade,
      log: seq<Trade>)
    requires fills != [] && s1.trades == s.trades + [t] && s1.trades <= log && s1.tradeSeq == s.tradeSeq + 1
    requires Records(pair, taker, fills[0], t) && Stamped(t, s.tradeSeq + 1, at)
    ensures Logged(pair, taker, fills[1..], s1.tradeSeq, at, Newer(s1, log))
       ==> Logged(pair, taker, fills, s.tradeSeq, at, Newer(s, log))
  {
    assert Newer(s, log)[0] == t && Newer(s, log)[1..] == Newer(s1, log);
  }

  /** The fills turn `s` into `r`. */
  ghost predicate Walked(pair: Pair, s: State, taker: OrderId, fills: seq<Fill>, at: Tick, r: State) {
    && Linked(s) && taker in s.orders && (forall f :: f in fills ==> f.maker in s.orders)
    && r == ApplyFills(pair, s, taker, fills, at)
  }

  lemma NoFill(pair: Pair, s: State, taker: OrderId, at: Tick, r: State)
    requires Walked(pair, s, taker, [], at, r)
    ensures Logged(pair, taker, [], s.tradeSeq, at, Newer(s, r.trades))
  {
  }

  lemma FirstFill(pair: Pair, s: State, taker: OrderId, fills: seq<Fill>, at: Tick, r: State) returns (s1: State)
    requires Walked(pair, s, taker, fills, at, r) && fills != []
    ensures Walked(pair, s1, taker, fills[1..], at, r)
    ensures Logged(pair, taker, fills[1..], s1.tradeSeq, at, Newer(s1, r.trades))
       ==> Logged(pair, taker, fills, s.tradeSeq, at, Newer(s, r.trades))
  {
    var t := FillTrade(pair, s, taker, fills[0], at);
    s1 := ApplyFill(pair, s, taker, fills[0], at);
    LoggedFirst(pair, taker, fills, at, s, s1, t, r.trades);
  }

  /** The trades several fills log record them in order. */
  lemma {:induction false} FillsTrades(pair: Pair, s: State, taker: OrderId, fills: seq<Fill>, at: Tick, r: State)
    requires Walked(pair, s, taker, fills, at, r)
    ensures Logged(pair, taker, fills, s.tradeSeq, at, Newer(s, r.trades))
    decreases |fills|
  {
    if fills == [] {
      NoFill(pair, s, taker, at, r);
    } else {
      var s1 := FirstFill(pair, s, taker, fills, at, r);
      FillsTrades(pair, s1, taker, fills[1..], at, r);
    }
  }

  function ValueIn(): Trade -> int { (t: Trade) => Value(t) }

  function TakerFeeIn(): Trade -> int { (t: Trade) => t.takerFee }

  function QuantityIn(): Trade -> int { (t: Trade) => t.quantity }

  lemma {:induction false} CostSnoc(fills: seq<Fill>, f: Fill, bps: int)
    ensures Cost(fills + [f]) == Cost(fills) + QuoteValue(f.price, f.qty)
    ensures Fees(fills + [f], bps) == Fees(fills, bps) + FeeOn(f.price, f.qty, bps)
    ensures Qty(fills + [f]) == Qty(fills) + f.qty
  {
    if fills != [] {
      assert (fills + [f])[1..] == fills[1..] + [f];
      CostSnoc(fills[1..], f, bps);
    }
  }

  lemma {:induction false} RecordedSums(pair: Pair, taker: OrderId, fills: seq<Fill>, trades: seq<Trade>)
    requires |fills| == |trades|
    requires forall i :: 0 <= i < |fills| ==> Records(pair, taker, fills[i], trades[i])
    ensures SeqSum(trades, ValueIn()) == Cost(fills)
    ensures SeqSum(trades, TakerFeeIn()) == Fees(fills, pair.takerFee)
    ensures SeqSum(trades, QuantityIn()) == Qty(fills)
  {
    if fills != [] {
      var n := |fills| - 1;
      RecordedSums(pair, taker, fills[..n], trades[..n]);
      assert fills == fills[..n] + [fills[n]];
      CostSnoc(fills[..n], fills[n], pair.takerFee);
    }
  }

  lemma FillsRecorded(pair: Pair, s: State, taker: OrderId, fills: seq<Fill>, at: Tick, r: State)
    requires Walked(pair, s, taker, fills, at, r)
    ensures Recorded(pair, taker, fills, s.tradeSeq, at, Newer(s, r.trades))
  {
    FillsTrades(pair, s, taker, fills, at, r);
    LoggedIsRecorded(pair, taker, fills, s.tradeSeq, at, Newer(s, r.trades));
  }

  /** The trades of a match are its fills, in order. */
  lemma MatchTrades(pair: Pair, s: State, x: OrderId, at: Tick)
    requires Ready(s, x)
    ensures Recorded(pair, x, FillsOf(s, x), s.tradeSeq, at, Match(pair, s, x, at).trades[|s.trades|..])
  {
    FillsRecorded(pair, s, x, FillsOf(s, x), at, ApplyFills(pair, s, x, FillsOf(s, x), at));
  }

  // ---- What a limit taker pays or receives ----

  lemma MatchFillsSound(s: State, x: OrderId)
    requires Ready(s, x)
    ensures forall f :: f in FillsOf(s, x) ==>
              FillSound(s.orders, s.orders[x], s.Book(Opposite(s.orders[x].side)), f)
    ensures s.orders[x].remaining >= 0 ==> Qty(FillsOf(s, x)) <= s.orders[x].remaining
  {
    var t := s.orders[x];
    PlanSound(s.orders, t, t.remaining, s.Book(Opposite(t.side)));
  }

  /** What a limit order at `price` for `quantity` units costs its taker. A buyer pays at most what was
      locked, less what covers the part left over, and at most the fee on its own terms; a seller receives
      at least the value of its fills at its own price, less one unit of rounding for each fill after the
      first. */
  ghost predicate WithinTerms(pair: Pair, side: Side, price: int, quantity: int, trades: seq<Trade>) {
    var filled := SeqSum(trades, QuantityIn());
    && 0 <= filled <= quantity
    && (side == Buy ==>
          && SeqSum(trades, ValueIn()) + QuoteValue(price, quantity - filled) <= QuoteValue(price, quantity)
          && SeqSum(trades, TakerFeeIn()) + FeeOn(price, quantity - filled, pair.takerFee)
             <= FeeOn(price, quantity, pair.takerFee))
    && (side == Sell && trades != [] ==>
          SeqSum(trades, ValueIn()) >= QuoteValue(price, filled) - (|trades| - 1))
  }

  /** A fill within a limit price on the taker's side. */
  predicate WithinLimit(side: Side, price: int, f: Fill) {
    f.qty >= 0 && if side == Buy then f.price <= price else f.price >= price
  }

  lemma FillsWithinTerms(pair: Pair, x: OrderId, side: Side, price: int, quantity: int, fills: seq<Fill>,
      trades: seq<Trade>)
    requires price > 0 && pair.takerFee >= 0 && Qty(fills) <= quantity
    requires forall i :: 0 <= i < |fills| ==> WithinLimit(side, price, fills[i])
    requires |fills| == |trades| && forall i :: 0 <= i < |fills| ==> Records(pair, x, fills[i], trades[i])
    requires 0 <= Qty(fills)
    ensures WithinTerms(pair, side, price, quantity, trades)
  {
    RecordedSums(pair, x, fills, trades);
    if side == Buy {
      CostBound(fills, price, quantity);
      FeesBound(fills, price, quantity, pair.takerFee);
    } else if fills != [] {
      ProceedsBound(fills, price);
    }
  }

  lemma MatchTakerBound(pair: Pair, s: State, x: OrderId, at: Tick)
    requires Ready(s, x) && s.orders[x].typ == Limit && s.orders[x].price > 0 && s.orders[x].remaining >= 0
    requires pair.takerFee >= 0
    ensures WithinTerms(pair, s.orders[x].side, s.orders[x].price, s.orders[x].remaining,
                        Match(pair, s, x, at).trades[|s.trades|..])
  {
    var t := s.orders[x];
    var fills := FillsOf(s, x);
    MatchTrades(pair, s, x, at);
    MatchFillsSound(s, x);
    MatchQty(s, x);
    forall i | 0 <= i < |fills| ensures WithinLimit(t.side, t.price, fills[i]) {
      assert fills[i] in fills;
    }
    FillsWithinTerms(pair, x, t.side, t.price, t.remaining, fills, Match(pair, s, x, at).trades[|s.trades|..]);
  }

  lemma AcceptedTakerBound(env: Env, s: State, a: PlaceArgs, at: Tick, s0: State, s': State, r: PlaceResult)
    requires env.Sound() && Accepted(env, s, a, at, s0, s', r) && a.typ == Limit
    ensures WithinTerms(env.pair, a.side, a.price, a.quantity, r.trades)
  {
    var s1, s2 := ExecuteStages(env.pair, s0, a, at, s', r);
    MatchTakerBound(env.pair, s1, s1.orderSeq, at);
  }

  lemma TakerBound(env: Env, s: State, a: PlaceArgs, at: Tick, s': State, r: PlaceResult)
    requires WellFormed(s) && env.Sound() && Place(env, s, a, at, s', r) && r.Placed? && a.typ == Limit
    ensures WithinTerms(env.pair, a.side, a.price, a.quantity, r.trades)
  {
    var s0 := PlaceIsAccepted(env, s, a, at, s', r);
    AcceptedTakerBound(env, s, a, at, s0, s', r);
  }

  // ---- Terminal orders ----

  /** Order `id` is as it was, and no trade after the first `n` names it. */
  ghost predicate Untouched(s: State, s': State, id: OrderId) {
    && id in s.orders && id in s'.orders && s'.orders[id] == s.orders[id]
    && s.trades <= s'.trades
    && forall t :: t in s'.trades[|s.trades|..] ==> t.makerOrder != id && t.takerOrder != id
  }

  lemma MatchUntouched(pair: Pair, s: State, x: OrderId, at: Tick, r: State, id: OrderId)
    requires Fresh(s, x) && Ready(s, x) && r == Match(pair, s, x, at) && Matched(s, x, r)
    requires id in s.orders && id != x && !s.orders[id].Active()
    ensures Untouched(s, r, id)
  {
    MatchNames(pair, s, x, at, id);
    assert id !in s.Book(Opposite(s.orders[x].side));
  }

  /** A match trades with orders of the opposite book only. */
  lemma MatchNames(pair: Pair, s: State, x: OrderId, at: Tick, id: OrderId)
    requires Ready(s, x) && id != x && id !in s.Book(Opposite(s.orders[x].side))
    ensures forall t :: t in Match(pair, s, x, at).trades[|s.trades|..] ==> t.makerOrder != id && t.takerOrder != id
  {
    var fills := FillsOf(s, x);
    MatchTrades(pair, s, x, at);
    MatchFillsSound(s, x);
    var trades := Match(pair, s, x, at).trades[|s.trades|..];
    forall t | t in trades ensures t.makerOrder != id && t.takerOrder != id {
      var i :| 0 <= i < |trades| && trades[i] == t;
      assert Records(pair, x, fills[i], trades[i]);
      assert fills[i] in fills;
    }
  }

  lemma AcceptedUntouched(env: Env, s: State, a: PlaceArgs, at: Tick, s0: State, s': State, r: PlaceResult, id: OrderId)
    requires WellFormed(s) && env.Sound() && Accepted(env, s, a, at, s0, s', r)
    requires id in s.orders && !s.orders[id].Active()
    ensures Untouched(s, s', id)
  {
    ExecuteUntouched(env.pair, s0, a, at, s', r, id);
  }

  lemma ExecuteUntouched(pair: Pair, s0: State, a: PlaceArgs, at: Tick, s': State, r: PlaceResult, id: OrderId)
    requires WellFormed(s0) && a.wallet in s0.wallets && Execute(pair, s0, a, at, s', r)
    requires a.quantity > 0 && (a.typ == Limit ==> a.price > 0)
    requires id in s0.orders && !s0.orders[id].Active()
    ensures Untouched(s0, s', id)
  {
    var s1, s2 := ExecuteStages(pair, s0, a, at, s', r);
    StagesUntouched(pair, s0, a, at, s1, s2, id);
    RestedAside(s2, s1.orderSeq, s');
  }

  lemma StagesUntouched(pair: Pair, s0: State, a: PlaceArgs, at: Tick, s1: State, s2: State, id: OrderId)
    requires WellFormed(s0) && Stages(pair, s0, a, at, s1, s2)
    requires id in s0.orders && !s0.orders[id].Active()
    ensures Untouched(s0, s2, id)
  {
    MatchUntouched(pair, s1, s1.orderSeq, at, s2, id);
  }

  /** A filled or cancelled order never changes again and never trades again. */
  lemma NextKeepsTerminal(env: Env, s: State, e: Event, s': State, id: OrderId)
    requires WellFormed(s) && env.Sound() && Next(env, s, e, s')
    requires id in s.orders && !s.orders[id].Active()
    ensures Untouched(s, s', id)
  {
    match e
    case PlaceEv(a, at) =>
      var r :| Place(env, s, a, at, s', r);
      if r.Placed? {
        var s0 := PlaceIsAccepted(env, s, a, at, s', r);
        AcceptedUntouched(env, s, a, at, s0, s', r, id);
      } else {
        PlaceRejected(env, s, a, at, s', r);
      }
    case CancelEv(x, w) => CancelUntouched(env.pair, s, x, w, id);
    case _ =>
  }

  lemma CancelUntouched(pair: Pair, s: State, x: OrderId, w: WalletId, id: OrderId)
    requires WellFormed(s) && id in s.orders && !s.orders[id].Active()
    ensures Untouched(s, Cancel(pair, s, x, w).0, id)
  {
    assert OrderOk(s.orders[id]);
  }

  // ---- The daily limit ----

  lemma PlacePassedLimit(env: Env, s: State, a: PlaceArgs, at: Tick, s': State, r: PlaceResult)
    requires WellFormed(s) && env.Sound() && Place(env, s, a, at, s', r) && r.Placed?
    ensures a.wallet in s.wallets && a.quantity > 0 && (a.typ == Limit ==> a.price > 0)
    ensures var w := s.wallets[a.wallet];
            w.tier != Institutional ==>
              VolumeOf(s.volumes, w.user, at.day) + QuoteValue(a.price, a.quantity) <= env.TierLimit(w.tier)
  {
    PlaceAccepted(env, s, a, at, s', r);
    EntryPassed(env, s, a);
    if s.wallets[a.wallet].tier != Institutional {
      LimitPassed(env, s, s.wallets[a.wallet], a.price, a.quantity, at.day);
    }
  }

  lemma LimitPassed(env: Env, s: State, w: Wallet, price: int, quantity: int, day: Day)
    requires LimitError(env, s, w, price, quantity, day).None? && w.tier != Institutional
    ensures VolumeOf(s.volumes, w.user, day) + QuoteValue(price, quantity) <= env.TierLimit(w.tier)
  {
  }

  // ---- A whole day ----

  /** A day's recorded volumes of the listed users. */
  ghost function DayTotal(v: Volumes, users: seq<UserId>, day: Day): int {
    if users == [] then 0 else VolumeOf(v, users[0], day) + DayTotal(v, users[1..], day)
  }

  function DayValue(day: Day): Trade -> int { (t: Trade) => if t.day == day then Value(t) else 0 }

  ghost function UsersOnTrade(ws: Wallets, t: Trade, users: seq<UserId>): int {
    if users == [] then 0 else Sides(ws, t, users[0]) + UsersOnTrade(ws, t, users[1..])
  }

  ghost function UsersTotal(ws: Wallets, trades: seq<Trade>, users: seq<UserId>, day: Day): int {
    if users == [] then 0
    else SeqSum(trades, VolumeBy(ws, users[0], day)) + UsersTotal(ws, trades, users[1..], day)
  }

  predicate Distinct(users: seq<UserId>) { forall i, j :: 0 <= i < j < |users| ==> users[i] != users[j] }

  ghost function Occurrences(users: seq<UserId>, u: UserId): int {
    if users == [] then 0 else (if users[0] == u then 1 else 0) + Occurrences(users[1..], u)
  }

  lemma {:induction false} OccursOnce(users: seq<UserId>, u: UserId)
    requires Distinct(users)
    ensures Occurrences(users, u) == if u in users then 1 else 0
  {
    if users != [] {
      OccursOnce(users[1..], u);
      assert u in users <==> u == users[0] || u in users[1..];
      assert users[0] !in users[1..];
    }
  }

  lemma {:induction false} UsersOnTradeIs(ws: Wallets, t: Trade, users: seq<UserId>)
    requires t.makerWallet in ws && t.takerWallet in ws
    ensures UsersOnTrade(ws, t, users)
         == Occurrences(users, ws[t.makerWallet].user) + Occurrences(users, ws[t.takerWallet].user)
  {
    if users != [] { UsersOnTradeIs(ws, t, users[1..]); }
  }

  lemma {:induction false} UsersTotalAppend(ws: Wallets, trades: seq<Trade>, t: Trade, users: seq<UserId>, day: Day)
    ensures UsersTotal(ws, trades + [t], users, day)
         == UsersTotal(ws, trades, users, day) + if t.day == day then Value(t) * UsersOnTrade(ws, t, users) else 0
  {
    if users != [] {
      UsersTotalAppend(ws, trades, t, users[1..], day);
      SeqSumAppend(trades, t, VolumeBy(ws, users[0], day));
      Distribute(Value(t), Sides(ws, t, users[0]), UsersOnTrade(ws, t, users[1..]));
    } else if t.day == day {
      Distribute(Value(t), 0, 0);
    }
  }

  lemma Distribute(v: int, a: int, b: int)
    ensures v * (a + b) == v * a + v * b
  {
  }

  lemma {:induction false} UsersTotalTwice(ws: Wallets, trades: seq<Trade>, users: seq<UserId>, day: Day)
    requires Distinct(users)
    requires forall t :: t in trades ==>
               && t.makerWallet in ws && ws[t.makerWallet].user in users
               && t.takerWallet in ws && ws[t.takerWallet].user in users
    ensures UsersTotal(ws, trades, users, day) == 2 * SeqSum(trades, DayValue(day))
  {
    if trades == [] {
      NoTradesNoTotal(ws, users, day);
    } else {
      var n := |trades| - 1;
      var t := trades[n];
      assert trades == trades[..n] + [t];
      UsersTotalTwice(ws, trades[..n], users, day);
      UsersTotalAppend(ws, trades[..n], t, users, day);
      assert t in trades;
      UsersOnTradeIs(ws, t, users);
      OccursOnce(users, ws[t.makerWallet].user);
      OccursOnce(users, ws[t.takerWallet].user);
    }
  }

  lemma {:induction false} NoTradesNoTotal(ws: Wallets, users: seq<UserId>, day: Day)
    ensures UsersTotal(ws, [], users, day) == 0
  {
    if users != [] { NoTradesNoTotal(ws, users[1..], day); }
  }

  lemma {:induction false} DayTotalIs(s: State, users: seq<UserId>, day: Day)
    requires VolumesExact(s)
    ensures DayTotal(s.volumes, users, day) == UsersTotal(s.wallets, s.trades, users, day)
  {
    if users != [] { DayTotalIs(s, users[1..], day); }
  }

  /** A day's recorded volumes, over all users, are twice the value of that day's trades. */
  lemma DayVolumes(pair: Pair, s: State, users: seq<UserId>, day: Day)
    requires Linked(s) && Accounts(pair, s)
    requires Distinct(users) && forall w :: w in s.wallets ==> s.wallets[w].user in users
    ensures DayTotal(s.volumes, users, day) == 2 * SeqSum(s.trades, DayValue(day))
  {
    forall t | t in s.trades
      ensures t.makerWallet in s.wallets && t.takerWallet in s.wallets
    {
      assert TradeValid(pair, s.orders, t);
    }
    DayTotalIs(s, users, day);
    UsersTotalTwice(s.wallets, s.trades, users, day);
  }
}
