/** The keeper itself: fields updated in place, each method proved against the transition system. */
module ExchangeKeeper {
  import opened Amounts
  import opened ExchangeTypes
  import opened OrderBook
  import opened Matching
  import opened ExchangeFills
  import opened ExchangeWellFormed
  import opened ExchangeInvariants
  import S = ExchangeState
  import D = OrderBookDepth

  /** What every state of the keeper meets: orders and books in order, and the accounts in agreement. */
  ghost predicate Consistent(pair: Pair, s: State) { S.WellFormed(s) && Accounts(pair, s) }

  // ---- The matching loop, one iteration at a time ----

  /** Where the walk along `book` ends up. */
  ghost function Onward(pair: Pair, s: State, id: OrderId, book: seq<OrderId>, at: S.Tick): State
    requires S.Linked(s) && id in s.orders && Known(s.orders, book)
  {
    S.ApplyFills(pair, s, id, S.FillsAlong(s, id, book), at)
  }

  ghost function Left(s: State, id: OrderId, book: seq<OrderId>): seq<OrderId>
    requires id in s.orders && Known(s.orders, book)
  {
    Rest(s.orders, s.orders[id], s.orders[id].remaining, book)
  }

  /** The walk stops at the end of the book, with nothing left to fill, or beyond the limit. */
  lemma OnwardStops(pair: Pair, s: State, id: OrderId, book: seq<OrderId>, at: S.Tick)
    requires S.Linked(s) && id in s.orders && Known(s.orders, book)
    requires book == [] || s.orders[id].remaining <= 0 || Beyond(s.orders[id], s.orders[book[0]])
    ensures Onward(pair, s, id, book, at) == s && Left(s, id, book) == book
  {
  }

  lemma OnwardSkips(pair: Pair, s: State, id: OrderId, book: seq<OrderId>, at: S.Tick)
    requires S.Linked(s) && id in s.orders && Facing(s.orders, s.orders[id], book) && book != []
    requires s.orders[id].remaining > 0 && !Beyond(s.orders[id], s.orders[book[0]])
    requires s.orders[book[0]].wallet == s.orders[id].wallet
    ensures Facing(s.orders, s.orders[id], book[1..])
    ensures Onward(pair, s, id, book, at) == Onward(pair, s, id, book[1..], at)
    ensures Left(s, id, book) == [book[0]] + Left(s, id, book[1..])
  {
    SkipStep(s.orders, id, book);
  }

  lemma OnwardFills(pair: Pair, s: State, id: OrderId, book: seq<OrderId>, at: S.Tick, s': State)
    requires S.Linked(s) && CanTake(s.orders, id, book) && Facing(s.orders, s.orders[id], book)
    requires s' == S.ApplyFill(pair, s, id, HeadFill(s.orders, id, book), at)
    ensures FillOk(s.orders, id, HeadFill(s.orders, id, book))
    ensures Facing(s'.orders, s'.orders[id], book[1..])
    ensures Onward(pair, s, id, book, at) == Onward(pair, s', id, book[1..], at)
    ensures Left(s, id, book)
         == (if s'.orders[book[0]].remaining == 0 then [] else [book[0]]) + Left(s', id, book[1..])
    ensures s'.orders[id] == s.orders[id].Take(HeadFill(s.orders, id, book).qty)
  {
    FillStepOrders(s.orders, id, book);
    FillStep(s.orders, id, book);
    FillEffect(pair, s, id, HeadFill(s.orders, id, book), at);
  }

  /** The walk of `id` is in state `s` with `done` behind it and `rest` ahead, bound for the state `final`
      and leaving the book `left`. */
  ghost predicate Walking(pair: Pair, id: OrderId, at: S.Tick, s: State, done: seq<OrderId>, rest: seq<OrderId>,
                          final: State, left: seq<OrderId>)
  {
    && S.Linked(s) && id in s.orders && s.orders[id].Active()
    && Facing(s.orders, s.orders[id], rest)
    && Onward(pair, s, id, rest, at) == final
    && done + Left(s, id, rest) == left
  }

  /** The next order can be looked up and is not the taker. */
  lemma WalkingNext(pair: Pair, id: OrderId, at: S.Tick, s: State, done: seq<OrderId>, rest: seq<OrderId>,
                    final: State, left: seq<OrderId>)
    requires Walking(pair, id, at, s, done, rest, final, left) && rest != []
    ensures S.Linked(s) && id in s.orders && rest[0] in s.orders && rest[0] != id
  {
    TakerNotFacing(s.orders, id, rest);
  }

  lemma WalkSkips(pair: Pair, id: OrderId, at: S.Tick, s: State, done: seq<OrderId>, rest: seq<OrderId>,
                  final: State, left: seq<OrderId>)
    requires Walking(pair, id, at, s, done, rest, final, left) && rest != []
    requires rest[0] in s.orders && s.orders[id].remaining > 0 && !Beyond(s.orders[id], s.orders[rest[0]])
    requires s.orders[rest[0]].wallet == s.orders[id].wallet
    ensures Walking(pair, id, at, s, done + [rest[0]], rest[1..], final, left)
  {
    OnwardSkips(pair, s, id, rest, at);
    assert done + [rest[0]] + Left(s, id, rest[1..]) == done + ([rest[0]] + Left(s, id, rest[1..]));
  }

  /** A fill either uses the next maker up, which deletes it, or leaves it behind. */
  lemma WalkFills(pair: Pair, id: OrderId, at: S.Tick, s: State, done: seq<OrderId>, rest: seq<OrderId>,
                  final: State, left: seq<OrderId>, s': State)
    requires Walking(pair, id, at, s, done, rest, final, left) && rest != []
    requires rest[0] in s.orders && s.orders[id].remaining > 0 && !Beyond(s.orders[id], s.orders[rest[0]])
    requires s.orders[rest[0]].wallet != s.orders[id].wallet
    requires s' == S.ApplyFill(pair, s, id, HeadFill(s.orders, id, rest), at)
    ensures id in s'.orders && rest[0] in s'.orders && s'.orders[id].side == s.orders[id].side
    ensures Walking(pair, id, at, s', if s'.orders[rest[0]].remaining == 0 then done else done + [rest[0]],
                    rest[1..], final, left)
  {
    OnwardFills(pair, s, id, rest, at, s');
    WalkOn(pair, id, at, s', done, if s'.orders[rest[0]].remaining == 0 then [] else [rest[0]], rest[1..], final, left);
    assert done + [] == done;
  }

  /** `kept` joins what the walk has behind it. */
  lemma WalkOn(pair: Pair, id: OrderId, at: S.Tick, s: State, done: seq<OrderId>, kept: seq<OrderId>,
      rest: seq<OrderId>, final: State, left: seq<OrderId>)
    requires S.Linked(s) && id in s.orders && s.orders[id].Active() && Facing(s.orders, s.orders[id], rest)
    requires Onward(pair, s, id, rest, at) == final && left == done + (kept + Left(s, id, rest))
    ensures Walking(pair, id, at, s, done + kept, rest, final, left)
  {
    assert done + kept + Left(s, id, rest) == done + (kept + Left(s, id, rest));
  }

  /** A match is the whole walk, the taker's status, and what is left of the book. */
  lemma MatchIsWalk(pair: Pair, s0: State, id: OrderId, at: S.Tick, final: State, left: seq<OrderId>)
    requires Ready(s0, id)
    requires var book := s0.Book(Opposite(s0.orders[id].side));
             final == Onward(pair, s0, id, book, at) && left == Left(s0, id, book)
    requires id in final.orders
    ensures S.Match(pair, s0, id, at)
         == final.(orders := final.orders[id := S.Finish(final.orders[id])]).WithBook(Opposite(s0.orders[id].side), left)
  {
  }

  /** A book split where the walk stands: what is there, what moving on leaves, what deleting leaves. */
  lemma Cut(done: seq<OrderId>, rest: seq<OrderId>)
    requires rest != []
    ensures var book, i := done + rest, |done|;
            && book[i] == rest[0]
            && book == done + [rest[0]] + rest[1..]
            && book[..i] + book[i + 1..] == done + rest[1..]
  {
    var book, i := done + rest, |done|;
    assert book[..i] == done && book[i + 1..] == rest[1..];
  }

  lemma LogGrows(log: seq<Trade>, more: seq<Trade>, t: Trade)
    ensures log + more + [t] == log + (more + [t])
  {
  }

  lemma WalkEnds(pair: Pair, id: OrderId, at: S.Tick, s: State, done: seq<OrderId>, rest: seq<OrderId>,
                 final: State, left: seq<OrderId>)
    requires Walking(pair, id, at, s, done, rest, final, left)
    requires rest == [] || s.orders[id].remaining <= 0
          || (rest[0] in s.orders && Beyond(s.orders[id], s.orders[rest[0]]))
    ensures id in s.orders && s == final && left == done + rest
  {
    OnwardStops(pair, s, id, rest, at);
  }

  /** An order just admitted can be matched, and afterwards it and both books can be looked up. */
  lemma AdmitMatched(pair: Pair, s: State, a: S.PlaceArgs, at: S.Tick, s1: State)
    requires S.WellFormed(s) && a.wallet in s.wallets && s1 == S.Admit(pair, s, a)
    requires a.quantity > 0 && (a.typ == Limit ==> a.price > 0)
    ensures Admitted(pair, s, a, s1) && Ready(s1, s1.orderSeq)
    ensures var m := S.Match(pair, s1, s1.orderSeq, at);
            s1.orderSeq in m.orders && Known(m.orders, m.bids) && Known(m.orders, m.asks)
  {
    AdmitStages(pair, s, a, at, s1);
    PendingKnown(S.Match(pair, s1, s1.orderSeq, at), s1.orderSeq);
  }

  lemma PendingKnown(s: State, id: OrderId)
    requires Pending(s, id)
    ensures id in s.orders && Known(s.orders, s.bids) && Known(s.orders, s.asks)
  {
    assert BookOkBut(s, Buy, id) && BookOkBut(s, Sell, id);
  }

  /** Admitting, matching and resting an order make up its execution. */
  lemma ExecuteIs(pair: Pair, s: State, a: S.PlaceArgs, at: S.Tick, s1: State, s2: State, s': State,
      newTrades: seq<Trade>)
    requires S.WellFormed(s) && Admitted(pair, s, a, s1)
    requires s2 == S.Match(pair, s1, s1.orderSeq, at) && s2.trades == s.trades + newTrades
    requires s1.orderSeq in s2.orders && S.Rested(s2, s1.orderSeq, s')
    ensures S.Execute(pair, s, a, at, s', S.Placed(s1.orderSeq, newTrades))
  {
    assert s2.trades[|s.trades|..] == newTrades;
  }

  /** A trade logged and settled and the two orders updated make up one fill. */
  lemma FillIs(pair: Pair, s: State, id: OrderId, f: Matching.Fill, at: S.Tick, t: Trade, s': State)
    requires S.Linked(s) && id in s.orders && f.maker in s.orders && t == S.TradeOf(pair, s, id, f, at)
    requires t.makerWallet in s.wallets && t.takerWallet in s.wallets
    requires s' == s.(wallets := S.Settle(pair, s.wallets, t), volumes := S.VolumesAfter(s, t),
                      orders := S.OrdersAfter(s.orders, id, f), trades := s.trades + [t], tradeSeq := s.tradeSeq + 1)
    ensures s' == S.ApplyFill(pair, s, id, f, at)
  {
  }

  // ---- Every operation keeps what `Valid` asks ----

  lemma InitKept(pair: Pair)
    ensures Consistent(pair, INIT_STATE)
  {
    assert S.BookOk(INIT_STATE, Buy) && S.BookOk(INIT_STATE, Sell);
  }

  lemma CreateKept(env: Env, s: State, user: UserId)
    requires Consistent(env.pair, s)
    ensures Consistent(env.pair, S.CreateWallet(env, s, user).0)
  {
    CreateWellFormed(env, s, user);
    CreateWalletsOnly(env, s, user);
    WalletsOnlyKeepsAccounts(env.pair, s, S.CreateWallet(env, s, user).0);
  }

  lemma DepositKept(pair: Pair, s: State, w: WalletId, d: Denom, amount: int)
    requires Consistent(pair, s)
    ensures Consistent(pair, S.Deposit(s, w, d, amount).0)
  {
    DepositWalletsOnly(s, w, d, amount);
    WalletsOnlyWellFormed(s, S.Deposit(s, w, d, amount).0);
    WalletsOnlyKeepsAccounts(pair, s, S.Deposit(s, w, d, amount).0);
  }

  lemma WithdrawKept(pair: Pair, s: State, w: WalletId, d: Denom, amount: int)
    requires Consistent(pair, s)
    ensures Consistent(pair, S.Withdraw(s, w, d, amount).0)
  {
    WithdrawWalletsOnly(s, w, d, amount);
    WalletsOnlyWellFormed(s, S.Withdraw(s, w, d, amount).0);
    WalletsOnlyKeepsAccounts(pair, s, S.Withdraw(s, w, d, amount).0);
  }

  lemma StandingKept(pair: Pair, s: State, w: WalletId, tier: Tier, active: bool)
    requires Consistent(pair, s)
    ensures Consistent(pair, S.SetStanding(s, w, tier, active))
  {
    StandingWalletsOnly(s, w, tier, active);
    WalletsOnlyWellFormed(s, S.SetStanding(s, w, tier, active));
    WalletsOnlyKeepsAccounts(pair, s, S.SetStanding(s, w, tier, active));
  }

  lemma WalletsOnlyWellFormed(s: State, r: State)
    requires S.WellFormed(s) && WalletsOnly(s, r) && r.wallets.Keys == s.wallets.Keys && r.walletSeq == s.walletSeq
    ensures S.WellFormed(r)
  {
    assert S.BookOk(s, Buy) && S.BookOk(s, Sell);
    assert S.BookOk(r, Buy) && S.BookOk(r, Sell);
  }

  lemma CreateWellFormed(env: Env, s: State, user: UserId)
    requires S.WellFormed(s)
    ensures S.WellFormed(S.CreateWallet(env, s, user).0)
  {
    var r := S.CreateWallet(env, s, user).0;
    assert S.BookOk(s, Buy) && S.BookOk(s, Sell);
    assert S.BookOk(r, Buy) && S.BookOk(r, Sell);
  }

  lemma TouchedKept(env: Env, s: State, w: Wallet, day: Day)
    requires Consistent(env.pair, s)
    ensures Consistent(env.pair, S.Touched(env, s, w, day))
  {
    S.TouchedWellFormed(env, s, w, day);
    TouchedKeepsAccounts(env, s, w, day);
  }

  lemma PlaceKept(env: Env, s: State, a: S.PlaceArgs, at: S.Tick, s': State, r: S.PlaceResult)
    requires env.Sound() && Consistent(env.pair, s) && S.Place(env, s, a, at, s', r)
    ensures Consistent(env.pair, s')
  {
    PlaceWellFormed(env, s, a, at, s', r);
    PlaceKeepsAccounts(env, s, a, at, s', r);
  }

  lemma CancelKept(pair: Pair, s: State, id: OrderId, w: WalletId)
    requires pair.base != pair.quote && Consistent(pair, s)
    ensures Consistent(pair, S.Cancel(pair, s, id, w).0)
  {
    CancelWellFormed(pair, s, id, w);
    CancelKeepsAccounts(pair, s, id, w);
  }

  lemma ReloadKept(pair: Pair, s: State, s': State)
    requires Consistent(pair, s) && S.Rebuilt(s, s')
    ensures Consistent(pair, s')
  {
    ReloadWellFormed(s, s');
    SameBooksAside(pair, s, s');
  }

  class Keeper {
    const env: Env

    var wallets: Wallets
    var orders: Orders
    var trades: seq<Trade>
    var volumes: Volumes
    var bids: seq<OrderId>
    var asks: seq<OrderId>
    var walletSeq: nat
    var orderSeq: nat
    var tradeSeq: nat

    ghost function Abs(): State
      reads this
    {
      State(wallets, orders, trades, volumes, bids, asks, walletSeq, orderSeq, tradeSeq)
    }

    ghost predicate Valid()
      reads this
    {
      env.Sound() && Consistent(env.pair, Abs())
    }

    constructor (env: Env)
      ensures this.env == env && Abs() == INIT_STATE
      ensures env.Sound() ==> Valid()
    {
      this.env := env;
      wallets, orders, trades, volumes := map[], map[], [], map[];
      bids, asks := [], [];
      walletSeq, orderSeq, tradeSeq := 0, 0, 0;
      new;
      InitKept(env.pair);
    }

    /** Whether the user has an active wallet. */
    method HasActiveWallet(user: UserId) returns (found: bool)
      ensures found <==> exists w :: w in wallets && wallets[w].user == user && wallets[w].active
    {
      var todo := wallets.Keys;
      while todo != {}
        invariant todo <= wallets.Keys
        invariant forall w :: w in wallets && w !in todo ==> !(wallets[w].user == user && wallets[w].active)
        decreases |todo|
      {
        var w :| w in todo;
        if wallets[w].user == user && wallets[w].active {
          return true;
        }
        todo := todo - {w};
      }
      found := false;
    }

    method CreateWallet(user: UserId) returns (id: WalletId, error: Option<Error>)
      requires Valid()
      modifies this`wallets, this`walletSeq
      ensures (Abs(), error) == S.CreateWallet(env, old(Abs()), user)
      ensures error.None? ==> id == walletSeq && id in wallets
      ensures Valid()
    {
      CreateKept(env, Abs(), user);
      id := 0;
      if !env.config.registrationOpen {
        return id, Some(RegistrationClosed);
      }
      var found := HasActiveWallet(user);
      if found {
        return id, Some(WalletExists);
      }
      walletSeq := walletSeq + 1;
      id := walletSeq;
      wallets := wallets[id := Wallet(user, NoTier, map[], map[], true)];
      error := None;
    }

    /** The outcome of a verification decision: the wallet's tier and standing. */
    method SetStanding(w: WalletId, tier: Tier, active: bool)
      requires Valid()
      modifies this`wallets
      ensures Abs() == S.SetStanding(old(Abs()), w, tier, active)
      ensures Valid()
    {
      ghost var s := Abs();
      if w in wallets {
        wallets := wallets[w := wallets[w].(tier := tier, active := active)];
      }
      StandingKept(env.pair, s, w, tier, active);
    }

    method DepositToWallet(w: WalletId, d: Denom, amount: int) returns (error: Option<Error>)
      requires Valid()
      modifies this`wallets
      ensures (Abs(), error) == S.Deposit(old(Abs()), w, d, amount)
      ensures Valid()
    {
      if w !in wallets {
        return Some(WalletNotFound);
      }
      if !wallets[w].active {
        return Some(WalletInactive);
      }
      ghost var s := Abs();
      wallets := wallets[w := wallets[w].AddBalance(d, amount)];
      error := None;
      DepositKept(env.pair, s, w, d, amount);
    }

    method WithdrawFromWallet(w: WalletId, d: Denom, amount: int) returns (error: Option<Error>)
      requires Valid()
      modifies this`wallets
      ensures (Abs(), error) == S.Withdraw(old(Abs()), w, d, amount)
      ensures Valid()
    {
      if w !in wallets {
        return Some(WalletNotFound);
      }
      if !wallets[w].active {
        return Some(WalletInactive);
      }
      var available := wallets[w].Balance(d) - wallets[w].Locked(d);
      if amount > available {
        return Some(InsufficientBalance);
      }
      ghost var s := Abs();
      wallets := wallets[w := wallets[w].AddBalance(d, -amount)];
      error := None;
      WithdrawKept(env.pair, s, w, d, amount);
    }

    method CheckDailyLimit(w: Wallet, price: int, quantity: int, day: Day) returns (error: Option<Error>)
      modifies this`volumes
      ensures Abs() == S.Touched(env, old(Abs()), w, day)
      ensures error == S.LimitError(env, old(Abs()), w, price, quantity, day)
    {
      if w.tier == Institutional {
        return None;
      }
      var limit := env.TierLimit(w.tier);
      if limit == 0 {
        return Some(InsufficientKYC);
      }
      var key := (w.user, day);
      if key !in volumes {
        volumes := volumes[key := 0];
      }
      assert old(volumes)[key := VolumeOf(old(volumes), w.user, day)] == volumes;
      var orderValue := Quo(price * quantity, MICRO);
      if volumes[key] + orderValue > limit {
        return Some(DailyLimitExceeded);
      }
      error := None;
    }

    method UpdateDailyLimit(user: UserId, volume: int, day: Day)
      modifies this`volumes
      ensures volumes == S.AddVolume(old(volumes), user, day, volume)
    {
      var key := (user, day);
      if key !in volumes {
        volumes := volumes[key := 0];
      }
      volumes := volumes[key := volumes[key] + volume];
    }

    method SettleTrade(t: Trade)
      requires t.makerWallet in wallets && t.takerWallet in wallets && t.makerWallet != t.takerWallet
      modifies this`wallets, this`volumes
      ensures wallets == S.Settle(env.pair, old(wallets), t)
      ensures volumes == S.VolumesAfter(old(Abs()), t)
    {
      var base, quote := env.pair.base, env.pair.quote;
      var maker, taker := wallets[t.makerWallet], wallets[t.takerWallet];
      var quoteAmount := Quo(t.price * t.quantity, MICRO);
      if t.side == Buy {
        maker := maker.AddLocked(base, -t.quantity);
        maker := maker.AddBalance(base, -t.quantity);
        maker := maker.AddBalance(quote, quoteAmount - t.makerFee);
        taker := taker.AddLocked(quote, -quoteAmount);
        taker := taker.AddBalance(quote, -quoteAmount);
        taker := taker.AddBalance(base, t.quantity);
        taker := taker.AddBalance(quote, -t.takerFee);
      } else {
        maker := maker.AddLocked(quote, -quoteAmount);
        maker := maker.AddBalance(quote, -quoteAmount);
        maker := maker.AddBalance(base, t.quantity);
        taker := taker.AddLocked(base, -t.quantity);
        taker := taker.AddBalance(base, -t.quantity);
        taker := taker.AddBalance(quote, quoteAmount - t.takerFee);
        maker := maker.AddBalance(quote, -t.makerFee);
      }
      assert wallets[t.makerWallet := maker][t.takerWallet := taker] == S.Settle(env.pair, wallets, t);
      wallets := wallets[t.makerWallet := maker][t.takerWallet := taker];
      UpdateDailyLimit(maker.user, quoteAmount, t.day);
      UpdateDailyLimit(taker.user, quoteAmount, t.day);
    }

    /** Logs a trade between two orders and settles it. */
    method RecordTrade(id: OrderId, makerId: OrderId, fillQty: int, at: S.Tick) returns (t: Trade)
      requires S.Linked(Abs()) && id in orders && makerId in orders && orders[id].wallet != orders[makerId].wallet
      modifies this`wallets, this`volumes, this`trades, this`tradeSeq
      ensures t == S.TradeOf(env.pair, old(Abs()), id, Matching.Fill(makerId, orders[makerId].price, fillQty), at)
      ensures trades == old(trades) + [t] && tradeSeq == old(tradeSeq) + 1
      ensures t.makerWallet in old(wallets) && t.takerWallet in old(wallets)
      ensures wallets == S.Settle(env.pair, old(wallets), t) && volumes == S.VolumesAfter(old(Abs()), t)
    {
      var order, maker := orders[id], orders[makerId];
      var executionPrice := maker.price;
      var makerFee := Quo(fillQty * executionPrice * env.pair.makerFee, FEE_SCALE);
      var takerFee := Quo(fillQty * executionPrice * env.pair.takerFee, FEE_SCALE);
      tradeSeq := tradeSeq + 1;
      t := Trade(tradeSeq, makerId, id, maker.wallet, order.wallet, order.side,
                 executionPrice, fillQty, makerFee, takerFee, at.day, at.height);
      trades := trades + [t];
      SettleTrade(t);
    }

    /** The body of the matching loop once a maker has been found. */
    method Fill(id: OrderId, makerId: OrderId, at: S.Tick) returns (t: Trade)
      requires S.Linked(Abs()) && id in orders && makerId in orders && id != makerId
      requires orders[id].wallet != orders[makerId].wallet
      modifies this`wallets, this`volumes, this`trades, this`tradeSeq, this`orders
      ensures Abs() == S.ApplyFill(env.pair, old(Abs()), id, FillWith(old(orders), id, makerId), at)
      ensures trades == old(trades) + [t]
    {
      ghost var s := Abs();
      var fillQty := orders[id].remaining;
      if orders[makerId].remaining < fillQty {
        fillQty := orders[makerId].remaining;
      }
      t := RecordTrade(id, makerId, fillQty, at);
      orders := orders[id := orders[id].Take(fillQty)];
      var maker := orders[makerId].Take(fillQty);
      if maker.remaining == 0 {
        maker := maker.(status := Filled);
      } else {
        maker := maker.(status := Partial);
      }
      orders := orders[makerId := maker];
      FillIs(env.pair, s, id, FillWith(s.orders, id, makerId), at, t, Abs());
    }

    /** A fill as a step of the walk. */
    method FillNext(id: OrderId, makerId: OrderId, at: S.Tick, ghost done: seq<OrderId>, ghost rest: seq<OrderId>,
                    ghost final: State, ghost left: seq<OrderId>) returns (t: Trade)
      requires Walking(env.pair, id, at, Abs(), done, rest, final, left) && rest != [] && rest[0] == makerId
      requires id in orders && makerId in orders && orders[id].remaining > 0
      requires !Beyond(orders[id], orders[makerId]) && orders[makerId].wallet != orders[id].wallet
      modifies this`wallets, this`volumes, this`trades, this`tradeSeq, this`orders
      ensures id in orders && makerId in orders && orders[id].side == old(orders)[id].side
      ensures Walking(env.pair, id, at, Abs(), if orders[makerId].remaining == 0 then done else done + [makerId],
                      rest[1..], final, left)
      ensures trades == old(trades) + [t]
    {
      ghost var s := Abs();
      WalkingNext(env.pair, id, at, s, done, rest, final, left);
      t := Fill(id, makerId, at);
      WalkFills(env.pair, id, at, s, done, rest, final, left, Abs());
    }

    /** Walks a book from its best price, deleting the makers it uses up as it goes. */
    method Walk(id: OrderId, at: S.Tick, opposite: seq<OrderId>, ghost final: State, ghost left: seq<OrderId>)
      returns (book: seq<OrderId>, newTrades: seq<Trade>)
      requires Walking(env.pair, id, at, Abs(), [], opposite, final, left)
      modifies this`wallets, this`volumes, this`trades, this`tradeSeq, this`orders
      ensures Abs() == final && book == left
      ensures id in orders && id in old(orders) && orders[id].side == old(orders)[id].side
      ensures trades == old(trades) + newTrades
    {
      book := opposite;
      newTrades := [];
      var i := 0;
      ghost var done, rest := [], opposite;
      while i < |book| && orders[id].remaining > 0
        invariant book == done + rest && i == |done|
        invariant id in orders && orders[id].side == old(orders)[id].side
        invariant Walking(env.pair, id, at, Abs(), done, rest, final, left)
        invariant trades == old(trades) + newTrades
        decreases |book| - i
      {
        Cut(done, rest);
        WalkingNext(env.pair, id, at, Abs(), done, rest, final, left);
        var makerId := book[i];
        if Beyond(orders[id], orders[makerId]) {
          break;
        }
        if orders[makerId].wallet == orders[id].wallet {
          WalkSkips(env.pair, id, at, Abs(), done, rest, final, left);
          done, rest := done + [makerId], rest[1..];
          i := i + 1;
          continue;
        }
        var t := FillNext(id, makerId, at, done, rest, final, left);
        LogGrows(old(trades), newTrades, t);
        newTrades := newTrades + [t];
        if orders[makerId].remaining == 0 {
          book := book[..i] + book[i + 1..];
          rest := rest[1..];
        } else {
          done, rest := done + [makerId], rest[1..];
          i := i + 1;
        }
      }
      WalkEnds(env.pair, id, at, Abs(), done, rest, final, left);
    }

    /** Matches an order against the opposite book, which is stored back as the walk leaves it. */
    method MatchOrder(id: OrderId, at: S.Tick) returns (newTrades: seq<Trade>)
      requires Ready(Abs(), id)
      modifies this
      ensures Abs() == S.Match(env.pair, old(Abs()), id, at)
      ensures trades == old(trades) + newTrades
    {
      ghost var s0 := Abs();
      var opposite := if orders[id].side == Buy then asks else bids;
      ghost var final, left := Onward(env.pair, s0, id, opposite, at), Left(s0, id, opposite);
      assert [] + left == left;
      var book;
      book, newTrades := Walk(id, at, opposite, final, left);
      MatchIsWalk(env.pair, s0, id, at, final, left);
      Conclude(id, book);
    }

    /** The end of the walk: the taker's status, and the opposite book as it now stands. */
    method Conclude(id: OrderId, book: seq<OrderId>)
      requires id in orders
      modifies this`orders, this`bids, this`asks
      ensures var s := old(Abs());
              Abs() == s.(orders := s.orders[id := S.Finish(s.orders[id])]).WithBook(Opposite(s.orders[id].side), book)
    {
      var order := orders[id];
      if order.remaining == 0 {
        order := order.(status := Filled);
      } else if order.filled > 0 {
        order := order.(status := Partial);
      }
      orders := orders[id := order];
      if order.side == Buy {
        asks := book;
      } else {
        bids := book;
      }
    }

    /** Checks, locks, matches, and rests what is left of a limit order. */
    method PlaceOrder(a: S.PlaceArgs, at: S.Tick) returns (r: S.PlaceResult)
      requires Valid()
      modifies this
      ensures S.Place(env, old(Abs()), a, at, Abs(), r)
      ensures Valid()
    {
      ghost var s := Abs();
      if a.wallet !in wallets {
        return S.Rejected(WalletNotFound);
      }
      var wallet := wallets[a.wallet];
      if !wallet.active {
        return S.Rejected(WalletInactive);
      }
      if wallet.tier == NoTier {
        return S.Rejected(InsufficientKYC);
      }
      if !env.config.tradingEnabled {
        return S.Rejected(TradingDisabled);
      }
      if a.pairId != env.pair.id {
        return S.Rejected(PairNotFound);
      }
      if !env.pair.active {
        return S.Rejected(PairInactive);
      }
      if a.quantity < env.pair.minOrderSize {
        return S.Rejected(BelowMinOrder);
      }
      if a.typ == Limit && a.price <= 0 {
        return S.Rejected(InvalidPrice);
      }
      assert S.EntryError(env, s, a).None?;
      TouchedKept(env, s, wallet, at.day);
      var limit := CheckDailyLimit(wallet, a.price, a.quantity, at.day);
      if limit.Some? {
        return S.Rejected(limit.value);
      }
      r := Execute(a, at);
      S.PlaceChecked(env, s, a, at, Abs(), r);
      PlaceKept(env, s, a, at, Abs(), r);
    }

    /** Locks the funds of an order and stores it, if the wallet has them free. */
    method Admit(a: S.PlaceArgs) returns (id: OrderId, error: Option<Error>)
      requires a.wallet in wallets
      modifies this`wallets, this`orders, this`orderSeq
      ensures error == S.FundsError(env.pair, old(wallets)[a.wallet], a)
      ensures Abs() == if error.Some? then old(Abs()) else S.Admit(env.pair, old(Abs()), a)
      ensures error.None? ==> id == old(orderSeq) + 1
    {
      id := 0;
      var wallet := wallets[a.wallet];
      if a.side == Buy {
        var lockAmount := Quo(a.price * a.quantity, MICRO);
        if lockAmount > wallet.Balance(env.pair.quote) - wallet.Locked(env.pair.quote) {
          return id, Some(InsufficientBalance);
        }
        wallets := wallets[a.wallet := wallet.AddLocked(env.pair.quote, lockAmount)];
      } else {
        if a.quantity > wallet.Balance(env.pair.base) - wallet.Locked(env.pair.base) {
          return id, Some(InsufficientBalance);
        }
        wallets := wallets[a.wallet := wallet.AddLocked(env.pair.base, a.quantity)];
      }
      orderSeq := orderSeq + 1;
      id := orderSeq;
      orders := orders[id := Order(a.wallet, a.side, a.typ, a.price, a.quantity, 0, a.quantity, Open)];
      error := None;
    }

    /** The rest of a placement once the limits are checked. */
    method Execute(a: S.PlaceArgs, at: S.Tick) returns (r: S.PlaceResult)
      requires S.WellFormed(Abs()) && a.wallet in wallets && a.quantity > 0 && (a.typ == Limit ==> a.price > 0)
      modifies this
      ensures var s := old(Abs());
              if S.FundsError(env.pair, s.wallets[a.wallet], a).Some?
              then Abs() == s && r == S.Rejected(InsufficientBalance)
              else S.Execute(env.pair, s, a, at, Abs(), r)
    {
      ghost var s := Abs();
      var id, error := Admit(a);
      if error.Some? {
        return S.Rejected(error.value);
      }
      ghost var s1 := Abs();
      AdmitMatched(env.pair, s, a, at, s1);
      var newTrades := MatchOrder(id, at);
      ghost var s2 := Abs();
      Rest(id);
      r := S.Placed(id, newTrades);
      ExecuteIs(env.pair, s, a, at, s1, s2, Abs(), newTrades);
    }

    /** Adds a limit order with units left to its side of the book and sorts that side again. */
    method Rest(id: OrderId)
      requires id in orders && Known(orders, bids) && Known(orders, asks)
      modifies this`bids, this`asks
      ensures S.Rested(old(Abs()), id, Abs())
    {
      var order := orders[id];
      if order.remaining > 0 && order.typ == Limit {
        if order.side == Buy {
          bids := SortByPrice(orders, bids + [id]);
        } else {
          asks := SortByPrice(orders, asks + [id]);
        }
      }
    }

    method CancelOrder(id: OrderId, w: WalletId) returns (error: Option<Error>)
      requires Valid()
      modifies this`wallets, this`orders, this`bids, this`asks
      ensures (Abs(), error) == S.Cancel(env.pair, old(Abs()), id, w)
      ensures Valid()
    {
      ghost var s := Abs();
      if id !in orders {
        return Some(OrderNotFound);
      }
      var order := orders[id];
      if order.wallet != w {
        return Some(Unauthorized);
      }
      if order.status == Filled {
        return Some(OrderFilled);
      }
      if order.status == Cancelled {
        return Some(OrderCancelled);
      }
      ActiveBooks(s);
      assert S.CancelError(s, id, w).None? && order.Active() by {
        assert S.OrderOk(s.orders[id]);
      }
      ClosedConsistent(env.pair, s, id);
      CloseOrder(id);
      error := None;
    }

    /** Unlocks, marks and unlists an order that is to be cancelled. */
    method CloseOrder(id: OrderId)
      requires S.Linked(Abs()) && id in orders && NoDup(bids) && NoDup(asks)
      modifies this`wallets, this`orders, this`bids, this`asks
      ensures Abs() == S.Closed(env.pair, old(Abs()), id)
    {
      var order := orders[id];
      Unlock(order.wallet, order);
      orders := orders[id := order.(status := Cancelled)];
      RemoveFromBook(id);
    }

    /** Releases what an order of wallet `w` still has locked. */
    method Unlock(w: WalletId, order: Order)
      requires w in wallets
      modifies this`wallets
      ensures wallets == old(wallets)[w := old(wallets)[w].AddLocked(
                S.LockDenom(env.pair, order.side), -S.LockAmount(order.side, order.price, order.remaining))]
    {
      if order.side == Buy {
        var lockAmount := Quo(order.price * order.remaining, MICRO);
        wallets := wallets[w := wallets[w].AddLocked(env.pair.quote, -lockAmount)];
      } else {
        wallets := wallets[w := wallets[w].AddLocked(env.pair.base, -order.remaining)];
      }
    }

    method RemoveFromBook(id: OrderId)
      requires id in orders && NoDup(bids) && NoDup(asks)
      modifies this`bids, this`asks
      ensures Abs() == old(Abs()).WithBook(orders[id].side, Drop(old(Abs()).Book(orders[id].side), {id}))
    {
      if orders[id].side == Buy {
        bids := Without(bids, id);
      } else {
        asks := Without(asks, id);
      }
    }

    /** Recomputes both books from the stored orders, which come in any order, and sorts them. */
    method RebuildOrderBooks()
      requires Valid()
      modifies this`bids, this`asks
      ensures S.Rebuilt(old(Abs()), Abs())
      ensures Valid()
    {
      ghost var s := Abs();
      var buys, sells := CollectActive();
      bids := SortByPrice(orders, buys);
      asks := SortByPrice(orders, sells);
      SortKeeps(orders, bids, buys);
      SortKeeps(orders, asks, sells);
      ReloadKept(env.pair, s, Abs());
    }

    /** The active orders of each side, in whatever order the map gives them. */
    method CollectActive() returns (buys: seq<OrderId>, sells: seq<OrderId>)
      ensures Collected(orders, Buy, {}, buys) && Collected(orders, Sell, {}, sells)
    {
      buys, sells := [], [];
      var todo := orders.Keys;
      while todo != {}
        invariant todo <= orders.Keys
        invariant Collected(orders, Buy, todo, buys) && Collected(orders, Sell, todo, sells)
        decreases |todo|
      {
        var id :| id in todo;
        if orders[id].status == Open || orders[id].status == Partial {
          if orders[id].side == Buy {
            buys := buys + [id];
          } else {
            sells := sells + [id];
          }
        }
        todo := todo - {id};
      }
    }

    /** The book snapshot of a pair; a pair the exchange does not have has empty sides. */
    method GetOrderBook(pairId: string, depth: int) returns (r: D.Snapshot)
      requires Valid()
      ensures Known(orders, bids) && Known(orders, asks)
      ensures D.IsDepth(orders, Buy, if pairId == env.pair.id then bids else [], depth, r.bids)
      ensures D.IsDepth(orders, Sell, if pairId == env.pair.id then asks else [], depth, r.asks)
      ensures r.lastPrice == if trades == [] then 0 else trades[|trades| - 1].price
    {
      assert S.BookOk(Abs(), Buy) && S.BookOk(Abs(), Sell);
      var levels := D.SideDepth(orders, Buy, if pairId == env.pair.id then bids else [], depth);
      var offers := D.SideDepth(orders, Sell, if pairId == env.pair.id then asks else [], depth);
      var lastPrice := 0;
      if |trades| > 0 {
        lastPrice := trades[|trades| - 1].price;
      }
      r := D.Snapshot(levels, offers, lastPrice);
    }
  }

  lemma ClosedConsistent(pair: Pair, s: State, id: OrderId)
    requires pair.base != pair.quote && Consistent(pair, s) && id in s.orders && s.orders[id].Active()
    ensures Consistent(pair, S.Closed(pair, s, id))
  {
    CancelKept(pair, s, id, s.orders[id].wallet);
  }

  lemma ActiveBooks(s: State)
    requires S.WellFormed(s)
    ensures NoDup(s.bids) && NoDup(s.asks)
    ensures Known(s.orders, s.bids) && Known(s.orders, s.asks)
  {
    assert S.BookOk(s, Buy) && S.BookOk(s, Sell);
  }

  /** The active orders of `side` outside `todo`, each once. */
  ghost predicate Collected(orders: Orders, side: Side, todo: set<OrderId>, found: seq<OrderId>) {
    && NoDup(found)
    && forall id :: id in found <==>
         id in orders && id !in todo && orders[id].side == side && orders[id].Active()
  }

  /** Deletes the first occurrence of `id`, as the source's search loop does. */
  method Without(book: seq<OrderId>, id: OrderId) returns (r: seq<OrderId>)
    requires NoDup(book)
    ensures r == Drop(book, {id})
  {
    for i := 0 to |book|
      invariant id !in book[..i]
    {
      if book[i] == id {
        DropOne(book, i);
        return book[..i] + book[i + 1..];
      }
    }
    DropNone(book, {id});
    assert book[..|book|] == book;
    return book;
  }

  lemma {:induction false} DropOne(book: seq<OrderId>, i: nat)
    requires NoDup(book) && i < |book|
    ensures Drop(book, {book[i]}) == book[..i] + book[i + 1..]
  {
    if i == 0 {
      DropNone(book[1..], {book[0]});
    } else {
      DropOne(book[1..], i - 1);
      assert book[..i] == [book[0]] + book[1..][..i - 1];
      assert book[1..][i..] == book[i + 1..];
    }
  }
}
