/** Runs of the default exchange that show where it does less than one would expect: a market buy beyond its
    lock, its funds and its limit; a buyer short of its fee; and a restart that crosses the books. */
module ExchangeExamples {
  import opened Sums
  import opened Amounts
  import opened ExchangeTypes
  import opened OrderBook
  import opened Matching
  import opened ExchangeState
  import opened ExchangeFills
  import opened ExchangeWellFormed
  import opened ExchangeMoney
  import opened ExchangeInvariants
  import opened ExchangeBooks
  import opened ExchangeSolvency
  import opened ExchangeOutcomes
  import opened ExchangePlacements
  import opened ExchangeRoundTrip
  import opened ExchangeRuns

  const SELLER: WalletId := 1
  const BUYER: WalletId := 2
  const PRICE := 2_000_000_000
  const UNITS := 1_000_000

  /** What a million units cost at that price, and the taker's fee on it. */
  const VALUE := 2_000_000_000
  const FEE := 5_000_000

  const TODAY := Tick(0, 0)

  // ---- Runs, one event at a time ----

  /** Some run of the default exchange over `events` ends in state `s`. */
  ghost predicate Reaches(events: seq<Event>, s: State) {
    exists states :: Run(DEFAULT_ENV, states, events) && states[|events|] == s
  }

  lemma ReachesInit()
    ensures Reaches([], INIT_STATE)
  {
    assert Run(DEFAULT_ENV, [INIT_STATE], []);
  }

  /** A run may go on by any event. */
  lemma RunGoesOn(env: Env, states: seq<State>, events: seq<Event>, s: State, e: Event, s': State)
    requires Run(env, states, events) && states[|events|] == s
    requires WellFormed(s) ==> Next(env, s, e, s')
    ensures Run(env, states + [s'], events + [e])
    ensures (states + [s'])[|events + [e]|] == s'
  {
    var longer, all := states + [s'], events + [e];
    forall i | 0 <= i < |all| && WellFormed(longer[i])
      ensures Next(env, longer[i], all[i], longer[i + 1])
    {
      if i < |events| {
        assert longer[i] == states[i] && longer[i + 1] == states[i + 1] && all[i] == events[i];
      }
    }
  }

  lemma ReachesNext(events: seq<Event>, s: State, e: Event, s': State)
    requires Reaches(events, s) && (WellFormed(s) ==> Next(DEFAULT_ENV, s, e, s'))
    ensures Reaches(events + [e], s')
  {
    var states :| Run(DEFAULT_ENV, states, events) && states[|events|] == s;
    RunGoesOn(DEFAULT_ENV, states, events, s, e, s');
  }

  lemma ReachesKeeps(events: seq<Event>, s: State)
    requires Reaches(events, s)
    ensures WellFormed(s) && Accounts(DEFAULT_ENV.pair, s)
  {
    var states :| Run(DEFAULT_ENV, states, events) && states[|events|] == s;
    RunKeepsAccounts(DEFAULT_ENV, states, events, |events|);
  }

  lemma ReachesSolvent(events: seq<Event>, s: State)
    requires Reaches(events, s) && forall i :: 0 <= i < |events| ==> Sane(events[i])
    ensures Solvent(DEFAULT_ENV.pair, s)
  {
    var states :| Run(DEFAULT_ENV, states, events) && states[|events|] == s;
    RunSolvent(DEFAULT_ENV, states, events, |events|);
  }

  // ---- Opening: two wallets, one of them funded ----

  function NewWallet(user: UserId): Wallet { Wallet(user, NoTier, map[], map[], true) }

  /** Wallets and nothing else. */
  function Opened(ws: Wallets, n: nat): State { INIT_STATE.(wallets := ws, walletSeq := n) }

  lemma CreateStep(events: seq<Event>, ws: Wallets, n: nat, user: UserId)
    requires Reaches(events, Opened(ws, n)) && forall w :: w in ws ==> ws[w].user != user
    ensures Reaches(events + [CreateWalletEv(user)], Opened(ws[n + 1 := NewWallet(user)], n + 1))
  {
    ReachesNext(events, Opened(ws, n), CreateWalletEv(user), CreateWallet(DEFAULT_ENV, Opened(ws, n), user).0);
  }

  lemma StandingStep(events: seq<Event>, ws: Wallets, n: nat, w: WalletId, tier: Tier)
    requires Reaches(events, Opened(ws, n)) && w in ws
    ensures Reaches(events + [StandingEv(w, tier, true)], Opened(ws[w := ws[w].(tier := tier, active := true)], n))
  {
    ReachesNext(events, Opened(ws, n), StandingEv(w, tier, true), SetStanding(Opened(ws, n), w, tier, true));
  }

  lemma DepositStep(events: seq<Event>, ws: Wallets, n: nat, w: WalletId, d: Denom, amount: int)
    requires Reaches(events, Opened(ws, n)) && w in ws && ws[w].active
    ensures Reaches(events + [DepositEv(w, d, amount)], Opened(ws[w := ws[w].AddBalance(d, amount)], n))
  {
    ReachesNext(events, Opened(ws, n), DepositEv(w, d, amount), Deposit(Opened(ws, n), w, d, amount).0);
  }

  const SELLER_TIER := Institutional

  /** A seller with units and a buyer with funds. */
  function Opening(buyer: Tier, units: int, funds: int): seq<Event> {
    [CreateWalletEv("seller")] + [CreateWalletEv("buyer")]
    + [StandingEv(SELLER, SELLER_TIER, true)] + [StandingEv(BUYER, buyer, true)]
    + [DepositEv(SELLER, "uftg", units)] + [DepositEv(BUYER, "uusdc", funds)]
  }

  function SellerWallet(units: int): Wallet { Wallet("seller", SELLER_TIER, map["uftg" := units], map[], true) }

  function BuyerWallet(tier: Tier, funds: int): Wallet { Wallet("buyer", tier, map["uusdc" := funds], map[], true) }

  function Start(buyer: Tier, units: int, funds: int): State {
    Opened(map[SELLER := SellerWallet(units), BUYER := BuyerWallet(buyer, funds)], 2)
  }

  lemma OpeningWallets(buyer: Tier, units: int, funds: int)
    ensures var ws: Wallets := map[];
            var ws1 := ws[1 := NewWallet("seller")];
            var ws2 := ws1[2 := NewWallet("buyer")];
            var ws3 := ws2[SELLER := ws2[SELLER].(tier := SELLER_TIER, active := true)];
            var ws4 := ws3[BUYER := ws3[BUYER].(tier := buyer, active := true)];
            var ws5 := ws4[SELLER := ws4[SELLER].AddBalance("uftg", units)];
            var ws6 := ws5[BUYER := ws5[BUYER].AddBalance("uusdc", funds)];
            ws6 == map[SELLER := SellerWallet(units), BUYER := BuyerWallet(buyer, funds)]
  {
  }

  lemma OpeningReaches(buyer: Tier, units: int, funds: int)
    ensures Reaches(Opening(buyer, units, funds), Start(buyer, units, funds))
  {
    ReachesInit();
    var ws: Wallets := map[];
    assert Opened(ws, 0) == INIT_STATE;
    CreateStep([], ws, 0, "seller");
    var ws1 := ws[1 := NewWallet("seller")];
    assert [] + [CreateWalletEv("seller")] == [CreateWalletEv("seller")];
    CreateStep([CreateWalletEv("seller")], ws1, 1, "buyer");
    var ws2 := ws1[2 := NewWallet("buyer")];
    var es := [CreateWalletEv("seller")] + [CreateWalletEv("buyer")];
    StandingStep(es, ws2, 2, SELLER, SELLER_TIER);
    var ws3 := ws2[SELLER := ws2[SELLER].(tier := SELLER_TIER, active := true)];
    es := es + [StandingEv(SELLER, SELLER_TIER, true)];
    StandingStep(es, ws3, 2, BUYER, buyer);
    var ws4 := ws3[BUYER := ws3[BUYER].(tier := buyer, active := true)];
    es := es + [StandingEv(BUYER, buyer, true)];
    DepositStep(es, ws4, 2, SELLER, "uftg", units);
    var ws5 := ws4[SELLER := ws4[SELLER].AddBalance("uftg", units)];
    es := es + [DepositEv(SELLER, "uftg", units)];
    DepositStep(es, ws5, 2, BUYER, "uusdc", funds);
    OpeningWallets(buyer, units, funds);
  }

  // ---- Placing an order beside an empty own side ----

  lemma RestAlone(s: State, id: OrderId) returns (s': State)
    requires id in s.orders && s.Book(s.orders[id].side) == []
    ensures Rested(s, id, s')
  {
    var o := s.orders[id];
    var none: seq<OrderId> := [];
    assert none + [id] == [id];
    s' := if o.remaining > 0 && o.typ == Limit then s.WithBook(o.side, [id]) else s;
  }

  lemma ExecutePossible(pair: Pair, s0: State, a: PlaceArgs, at: Tick) returns (s': State, r: PlaceResult)
    requires WellFormed(s0) && a.wallet in s0.wallets && s0.Book(a.side) == []
    requires a.quantity > 0 && (a.typ == Limit ==> a.price > 0)
    ensures Execute(pair, s0, a, at, s', r) && r.Placed?
  {
    var s1 := Admit(pair, s0, a);
    AdmitStages(pair, s0, a, at, s1);
    var s2 := Match(pair, s1, s1.orderSeq, at);
    OwnSideKept(pair, s0, a, at, s1, s2);
    s' := RestAlone(s2, s1.orderSeq);
    r := Placed(s1.orderSeq, s2.trades[|s0.trades|..]);
  }

  lemma OwnSideKept(pair: Pair, s0: State, a: PlaceArgs, at: Tick, s1: State, s2: State)
    requires Stages(pair, s0, a, at, s1, s2)
    ensures s1.orderSeq in s2.orders && s2.orders[s1.orderSeq].side == a.side && s2.Book(a.side) == s0.Book(a.side)
  {
    MatchOrderOk(s1, s1.orderSeq, s2, s1.orderSeq);
  }

  /** An order that may be placed can be. */
  lemma PlacePossible(env: Env, s: State, a: PlaceArgs, at: Tick) returns (s': State, r: PlaceResult)
    requires WellFormed(s) && env.Sound() && MayPlace(env, s, a, at.day) && s.Book(a.side) == []
    ensures Place(env, s, a, at, s', r) && r.Placed?
  {
    AcceptedIsAllowed(env, s, a, at.day);
    var w := s.wallets[a.wallet];
    TouchedWellFormed(env, s, w, at.day);
    s', r := ExecutePossible(env.pair, Touched(env, s, w, at.day), a, at);
    PlaceChecked(env, s, a, at, s', r);
  }

  lemma ReachesPlace(events: seq<Event>, s: State, a: PlaceArgs) returns (s': State, r: PlaceResult)
    requires Reaches(events, s) && WellFormed(s) && MayPlace(DEFAULT_ENV, s, a, TODAY.day) && s.Book(a.side) == []
    ensures Place(DEFAULT_ENV, s, a, TODAY, s', r) && r.Placed?
    ensures Reaches(events + [PlaceEv(a, TODAY)], s')
  {
    s', r := PlacePossible(DEFAULT_ENV, s, a, TODAY);
    ReachesNext(events, s, PlaceEv(a, TODAY), s');
  }

  /** A placement that meets no fills stores its order and its lock and nothing else. */
  lemma UnmatchedIs(env: Env, s: State, a: PlaceArgs, at: Tick, s': State, r: PlaceResult)
    requires WellFormed(s) && env.Sound() && Place(env, s, a, at, s', r) && r.Placed?
    requires Known(s.orders, s.Book(Opposite(a.side))) && BookFills(s, a) == []
    ensures a.wallet in s.wallets
    ensures s'.wallets == Admit(env.pair, s, a).wallets && s'.orders == Admit(env.pair, s, a).orders
    ensures forall u, day :: VolumeOf(s'.volumes, u, day) == VolumeOf(s.volumes, u, day)
  {
    var s0, s1 := PlaceStages(env, s, a, at, s', r);
    NoFillsNoChange(env.pair, s1, s1.orderSeq, at);
    AdmittedAside(env.pair, s, s0, a, s1);
  }

  lemma AdmittedAside(pair: Pair, s: State, s0: State, a: PlaceArgs, s1: State)
    requires VolumesAside(s, s0) && Admitted(pair, s0, a, s1)
    ensures a.wallet in s.wallets
    ensures s1.wallets == Admit(pair, s, a).wallets && s1.orders == Admit(pair, s, a).orders
    ensures forall u, day :: VolumeOf(s1.volumes, u, day) == VolumeOf(s.volumes, u, day)
  {
  }

  lemma OnlyMember(book: seq<OrderId>, id: OrderId)
    requires NoDup(book) && id in book && forall x :: x in book ==> x == id
    ensures book == [id]
  {
    MembersSize(book);
    assert Members(book) == {id};
    assert book[0] in book;
  }

  lemma NoMember(book: seq<OrderId>)
    requires NoDup(book) && forall x :: x !in book
    ensures book == []
  {
    MembersSize(book);
    assert Members(book) == {};
  }

  /** The fills of an order that meets one order it may trade with. */
  lemma OneFill(s: State, a: PlaceArgs, x: OrderId)
    requires s.Book(Opposite(a.side)) == [x] && x in s.orders && a.quantity > 0
    requires Eligible(NewOrder(a), s.orders[x])
    ensures BookFills(s, a) == [Fill(x, s.orders[x].price, Min(a.quantity, s.orders[x].remaining))]
  {
    var book := s.Book(Opposite(a.side));
    var q := Min(a.quantity, s.orders[x].remaining);
    assert book[0] == x && book[1..] == [];
    assert Plan(s.orders, NewOrder(a), a.quantity - q, book[1..]) == [];
  }

  lemma OneFillSums(f: Fill, bps: int, x: OrderId)
    ensures Qty([f]) == f.qty && Cost([f]) == QuoteValue(f.price, f.qty) && Fees([f], bps) == FeeOn(f.price, f.qty, bps)
    ensures FilledFrom([f], x) == if f.maker == x then f.qty else 0
  {
  }

  // ---- The sale every example starts with ----

  const SALE := PlaceArgs(SELLER, "FTG-USDC", Sell, Limit, PRICE, UNITS)

  /** A resting sale of a million units in an exchange with no other order; the buyer is as it was. */
  ghost predicate Offered(buyer: Tier, funds: int, s: State) {
    && WellFormed(s) && Accounts(DEFAULT_ENV.pair, s)
    && s.orders == map[1 := NewOrder(SALE)] && s.orderSeq == 1
    && s.bids == [] && s.asks == [1]
    && BUYER in s.wallets && s.wallets[BUYER] == BuyerWallet(buyer, funds)
    && SELLER in s.wallets && s.wallets[SELLER].tier == SELLER_TIER && s.wallets[SELLER].active
    && VolumeOf(s.volumes, "buyer", 0) == 0
  }

  lemma SaleMayBePlaced(buyer: Tier, funds: int)
    ensures MayPlace(DEFAULT_ENV, Start(buyer, UNITS, funds), SALE, TODAY.day)
    ensures SELLER in Start(buyer, UNITS, funds).wallets
  {
  }

  lemma SaleStored(buyer: Tier, funds: int, s: State)
    requires s == Start(buyer, UNITS, funds)
    ensures SELLER in s.wallets && BUYER in s.wallets
    ensures var r := Admit(DEFAULT_ENV.pair, s, SALE);
            && r.orders == map[1 := NewOrder(SALE)] && r.orderSeq == 1
            && BUYER in r.wallets && r.wallets[BUYER] == BuyerWallet(buyer, funds)
            && SELLER in r.wallets && r.wallets[SELLER].tier == SELLER_TIER && r.wallets[SELLER].active
  {
  }

  lemma SaleBooks(s: State, s': State, r: PlaceResult)
    requires WellFormed(s) && WellFormed(s') && s.bids == [] && s.asks == [] && s.orderSeq == 0
    requires Place(DEFAULT_ENV, s, SALE, TODAY, s', r) && r.Placed? && s'.orders == map[1 := NewOrder(SALE)]
    ensures s'.bids == [] && s'.asks == [1]
  {
    PlaceJoined(DEFAULT_ENV, s, SALE, TODAY, s', r);
    assert BookOk(s', Buy) && BookOk(s', Sell);
    NoMember(s'.bids);
    OnlyMember(s'.asks, 1);
  }

  lemma SaleOffered(buyer: Tier, funds: int) returns (s: State)
    ensures Offered(buyer, funds, s)
    ensures Reaches(Opening(buyer, UNITS, funds) + [PlaceEv(SALE, TODAY)], s)
  {
    var s0 := Start(buyer, UNITS, funds);
    OpeningReaches(buyer, UNITS, funds);
    ReachesKeeps(Opening(buyer, UNITS, funds), s0);
    SaleMayBePlaced(buyer, funds);
    var r;
    s, r := ReachesPlace(Opening(buyer, UNITS, funds), s0, SALE);
    ReachesKeeps(Opening(buyer, UNITS, funds) + [PlaceEv(SALE, TODAY)], s);
    UnmatchedIs(DEFAULT_ENV, s0, SALE, TODAY, s, r);
    SaleStored(buyer, funds, s0);
    PlacementOrders(DEFAULT_ENV, s0, SALE, TODAY, s, r);
    SaleBooks(s0, s, r);
  }

  // ---- A buyer takes the whole sale ----

  /** A buy of a million units that meets the sale. */
  predicate Takes(a: PlaceArgs) {
    a.wallet == BUYER && a.side == Buy && a.quantity == UNITS && (a.typ == Market || a.price >= PRICE)
  }

  lemma TakesAll(buyer: Tier, funds: int, s: State, a: PlaceArgs)
    requires Offered(buyer, funds, s) && Takes(a)
    ensures Known(s.orders, s.asks) && BookFills(s, a) == [Fill(1, PRICE, UNITS)]
    ensures Qty(BookFills(s, a)) == UNITS && Cost(BookFills(s, a)) == VALUE
    ensures Fees(BookFills(s, a), DEFAULT_ENV.pair.takerFee) == FEE
    ensures FilledFrom(BookFills(s, a), 1) == UNITS
  {
    OneFill(s, a, 1);
    OneFillSums(Fill(1, PRICE, UNITS), DEFAULT_ENV.pair.takerFee, 1);
  }

  /** Neither order is an active buy of the buyer before or after. */
  lemma NoCover(s: State, a: PlaceArgs, s': State)
    requires s.orders == map[1 := NewOrder(SALE)] && Takes(a)
    requires OrdersMet(s.orders, 2, NewOrder(a), [Fill(1, PRICE, UNITS)], s'.orders)
    ensures Sum(s.orders, BuyCover(BUYER)) == 0 && Sum(s'.orders, BuyCover(BUYER)) == 0
  {
    OneFillSums(Fill(1, PRICE, UNITS), 0, 1);
    SumZero(s.orders, BuyCover(BUYER));
    forall id | id in s'.orders ensures BuyCover(BUYER)(s'.orders[id]) == 0 {
      assert id == 2 || MadeFrom(s.orders[id], s'.orders[id], FilledFrom([Fill(1, PRICE, UNITS)], id));
    }
    SumZero(s'.orders, BuyCover(BUYER));
  }

  /** What the buyer is left with: a lock that gave up the value at the order's own price for the value paid, and
      a balance less the value and the fee. */
  lemma TakenLock(buyer: Tier, funds: int, s: State, a: PlaceArgs, s': State, r: PlaceResult)
    requires Offered(buyer, funds, s) && Takes(a) && Place(DEFAULT_ENV, s, a, TODAY, s', r) && r.Placed?
    ensures BUYER in s'.wallets
    ensures s'.wallets[BUYER].Locked(DEFAULT_ENV.pair.quote) == CoverGain(a.price, UNITS, UNITS, VALUE)
  {
    TakesAll(buyer, funds, s, a);
    assert Sum(s.orders, BuyCover(BUYER)) == 0 && Sum(s'.orders, BuyCover(BUYER)) == 0 by {
      PlacementOrders(DEFAULT_ENV, s, a, TODAY, s', r);
      NoCover(s, a, s');
    }
    PlacementSlack(DEFAULT_ENV, s, a, TODAY, s', r, BUYER);
    assert s.wallets[BUYER].Locked(DEFAULT_ENV.pair.quote) == 0;
    assert BuyerGain(NewOrder(a), BookFills(s, a), BUYER) == CoverGain(a.price, UNITS, UNITS, VALUE);
  }

  lemma TakenBalance(buyer: Tier, funds: int, s: State, a: PlaceArgs, s': State, r: PlaceResult)
    requires Offered(buyer, funds, s) && Takes(a) && Place(DEFAULT_ENV, s, a, TODAY, s', r) && r.Placed?
    ensures BUYER in s'.wallets && s'.wallets[BUYER].user == "buyer"
    ensures s'.wallets[BUYER].Balance(DEFAULT_ENV.pair.quote) == funds - VALUE - FEE
  {
    TakesAll(buyer, funds, s, a);
    PlacementOwner(DEFAULT_ENV, s, a, TODAY, s', r, BUYER);
    PlacementBalance(DEFAULT_ENV, s, a, TODAY, s', r, DEFAULT_ENV.pair.quote);
    assert s.wallets[BUYER].Balance(DEFAULT_ENV.pair.quote) == funds;
  }

  lemma TakenVolume(buyer: Tier, funds: int, s: State, a: PlaceArgs, s': State, r: PlaceResult)
    requires Offered(buyer, funds, s) && Takes(a) && Place(DEFAULT_ENV, s, a, TODAY, s', r) && r.Placed?
    ensures VolumeOf(s'.volumes, "buyer", TODAY.day) >= VALUE
  {
    TakesAll(buyer, funds, s, a);
    PlacementVolume(DEFAULT_ENV, s, a, TODAY, s', r, "buyer", TODAY.day);
    assert VolumeOfFills(s.wallets, s.orders, BUYER, [Fill(1, PRICE, UNITS)], "buyer")
        == VolumeOfFill(s.wallets, SELLER, BUYER, Fill(1, PRICE, UNITS), "buyer");
  }

  // ---- A market buy that names no price ----

  const MARKET_BUY := PlaceArgs(BUYER, "FTG-USDC", Buy, Market, 0, UNITS)

  function MarketBuyEvents(): seq<Event> {
    Opening(Basic, UNITS, 0) + [PlaceEv(SALE, TODAY)] + [PlaceEv(MARKET_BUY, TODAY)]
  }

  lemma MarketBuyAllowed(s: State)
    requires Offered(Basic, 0, s)
    ensures MayPlace(DEFAULT_ENV, s, MARKET_BUY, TODAY.day)
  {
  }

  /** A market buy naming no price, admitted with nothing locked and nothing in the wallet, leaves it a negative
      lock, a negative balance and a volume past its limit. */
  lemma MarketBuyUncovered() returns (s: State)
    ensures Reaches(MarketBuyEvents(), s)
    ensures BUYER in s.wallets && s.wallets[BUYER].user == "buyer"
    ensures s.wallets[BUYER].Locked(DEFAULT_ENV.pair.quote) < 0
    ensures s.wallets[BUYER].Balance(DEFAULT_ENV.pair.quote) < 0
    ensures VolumeOf(s.volumes, "buyer", TODAY.day) > DEFAULT_ENV.TierLimit(Basic)
  {
    var s0 := SaleOffered(Basic, 0);
    MarketBuyAllowed(s0);
    var r;
    s, r := ReachesPlace(Opening(Basic, UNITS, 0) + [PlaceEv(SALE, TODAY)], s0, MARKET_BUY);
    TakenLock(Basic, 0, s0, MARKET_BUY, s, r);
    TakenBalance(Basic, 0, s0, MARKET_BUY, s, r);
    TakenVolume(Basic, 0, s0, MARKET_BUY, s, r);
  }

  // ---- A limit buy whose fee nothing covers ----

  const LIMIT_BUY := PlaceArgs(BUYER, "FTG-USDC", Buy, Limit, PRICE, UNITS)

  function LimitBuyEvents(): seq<Event> {
    Opening(Full, UNITS, VALUE) + [PlaceEv(SALE, TODAY)] + [PlaceEv(LIMIT_BUY, TODAY)]
  }

  lemma LimitBuyAllowed(s: State)
    requires Offered(Full, VALUE, s)
    ensures MayPlace(DEFAULT_ENV, s, LIMIT_BUY, TODAY.day)
  {
  }

  /** A limit buy whose whole value was in the wallet and locked leaves its free quote at exactly minus the fee: the
      solvency bound is met. */
  lemma FeeUncovered() returns (s: State)
    ensures Reaches(LimitBuyEvents(), s) && BUYER in s.wallets
    ensures s.wallets[BUYER].Locked(DEFAULT_ENV.pair.quote) == 0
    ensures s.wallets[BUYER].Available(DEFAULT_ENV.pair.quote) == -FeeOn(PRICE, UNITS, DEFAULT_ENV.pair.takerFee) < 0
  {
    var s0 := SaleOffered(Full, VALUE);
    LimitBuyAllowed(s0);
    var r;
    s, r := ReachesPlace(Opening(Full, UNITS, VALUE) + [PlaceEv(SALE, TODAY)], s0, LIMIT_BUY);
    TakenLock(Full, VALUE, s0, LIMIT_BUY, s, r);
    TakenBalance(Full, VALUE, s0, LIMIT_BUY, s, r);
  }

  // ---- A price improvement that stays locked ----

  const GENEROUS_BUY := PlaceArgs(BUYER, "FTG-USDC", Buy, Limit, 2 * PRICE, UNITS)

  function GenerousBuyEvents(): seq<Event> {
    Opening(Full, UNITS, 2 * VALUE) + [PlaceEv(SALE, TODAY)] + [PlaceEv(GENEROUS_BUY, TODAY)]
  }

  lemma GenerousBuyAllowed(s: State)
    requires Offered(Full, 2 * VALUE, s)
    ensures MayPlace(DEFAULT_ENV, s, GENEROUS_BUY, TODAY.day)
  {
  }

  lemma AllFilled(s: State, a: PlaceArgs, s': State)
    requires s.orders == map[1 := NewOrder(SALE)] && Takes(a)
    requires OrdersMet(s.orders, 2, NewOrder(a), [Fill(1, PRICE, UNITS)], s'.orders)
    ensures forall id :: id in s'.orders ==> !s'.orders[id].Active()
    ensures a.typ == Limit ==> NoMarketBuys(s'.orders, BUYER)
  {
    OneFillSums(Fill(1, PRICE, UNITS), 0, 1);
    forall id | id in s'.orders ensures !s'.orders[id].Active() && (id == 2 || s'.orders[id].side == Sell) {
      assert id == 2 || MadeFrom(s.orders[id], s'.orders[id], FilledFrom([Fill(1, PRICE, UNITS)], id));
    }
  }

  /** A limit buy filled at half its price leaves the other half locked with no order active, for good: no later step
      lowers it while the wallet places no market buy. */
  lemma ImprovementStranded() returns (s: State)
    ensures Reaches(GenerousBuyEvents(), s) && BUYER in s.wallets
    ensures forall id :: id in s.orders ==> !s.orders[id].Active()
    ensures NoMarketBuys(s.orders, BUYER)
    ensures s.wallets[BUYER].Locked(DEFAULT_ENV.pair.quote) == VALUE > 0
  {
    var s0 := SaleOffered(Full, 2 * VALUE);
    GenerousBuyAllowed(s0);
    var r;
    s, r := ReachesPlace(Opening(Full, UNITS, 2 * VALUE) + [PlaceEv(SALE, TODAY)], s0, GENEROUS_BUY);
    TakenLock(Full, 2 * VALUE, s0, GENEROUS_BUY, s, r);
    TakesAll(Full, 2 * VALUE, s0, GENEROUS_BUY);
    PlacementOrders(DEFAULT_ENV, s0, GENEROUS_BUY, TODAY, s, r);
    AllFilled(s0, GENEROUS_BUY, s);
  }

  // ---- A restart that crosses the books ----

  const MARKET_REST := PlaceArgs(BUYER, "FTG-USDC", Buy, Market, PRICE, 2 * UNITS)

  function HalfEvents(): seq<Event> {
    Opening(Institutional, UNITS, 2 * VALUE) + [PlaceEv(SALE, TODAY)] + [PlaceEv(MARKET_REST, TODAY)]
  }

  function UneasyEvents(): seq<Event> { HalfEvents() + [DepositEv(SELLER, "uftg", UNITS)] + [PlaceEv(SALE, TODAY)] }

  function RestartEvents(): seq<Event> { UneasyEvents() + [ReloadEv] }

  lemma RestAllowed(s: State)
    requires Offered(Institutional, 2 * VALUE, s)
    ensures MayPlace(DEFAULT_ENV, s, MARKET_REST, TODAY.day)
  {
  }

  /** Half of the market buy is left, active and on no book. */
  ghost predicate HalfLeft(s: State) {
    && WellFormed(s) && s.orderSeq == 2 && s.orders.Keys == {1, 2}
    && s.orders[1].status == Filled
    && s.orders[2] == NewOrder(MARKET_REST).Take(UNITS).(status := Partial)
    && s.bids == [] && s.asks == []
    && SELLER in s.wallets && s.wallets[SELLER].tier == Institutional && s.wallets[SELLER].active
  }

  lemma HalfOrders(s: State, s': State)
    requires s.orders == map[1 := NewOrder(SALE)]
    requires OrdersMet(s.orders, 2, NewOrder(MARKET_REST), [Fill(1, PRICE, UNITS)], s'.orders)
    ensures s'.orders.Keys == {1, 2} && s'.orders[1].status == Filled
    ensures s'.orders[2] == NewOrder(MARKET_REST).Take(UNITS).(status := Partial)
  {
    OneFillSums(Fill(1, PRICE, UNITS), 0, 1);
    assert MadeFrom(s.orders[1], s'.orders[1], FilledFrom([Fill(1, PRICE, UNITS)], 1));
  }

  lemma HalfBids(s: State, s': State, r: PlaceResult)
    requires WellFormed(s) && WellFormed(s') && s.bids == []
    requires Place(DEFAULT_ENV, s, MARKET_REST, TODAY, s', r) && r.Placed?
    ensures s'.bids == []
  {
    PlaceJoined(DEFAULT_ENV, s, MARKET_REST, TODAY, s', r);
    assert BookOk(s', Buy);
    NoMember(s'.bids);
  }

  lemma HalfSells(orders: Orders)
    requires orders.Keys == {1, 2} && orders[1].status == Filled
    requires orders[2] == NewOrder(MARKET_REST).Take(UNITS).(status := Partial)
    ensures forall id :: id in orders ==> !ActiveOn(orders[id], Sell)
  {
    assert orders[2].side == Buy;
  }

  /** No active sell, no ask. */
  lemma NoAsks(s: State)
    requires WellFormed(s) && forall id :: id in s.orders ==> !ActiveOn(s.orders[id], Sell)
    ensures s.asks == []
  {
    assert BookOk(s, Sell);
    NoMember(s.asks);
  }

  lemma MarketRests(s: State, s': State, r: PlaceResult)
    requires Offered(Institutional, 2 * VALUE, s) && WellFormed(s')
    requires Place(DEFAULT_ENV, s, MARKET_REST, TODAY, s', r) && r.Placed?
    ensures HalfLeft(s')
  {
    OneFill(s, MARKET_REST, 1);
    PlacementOrders(DEFAULT_ENV, s, MARKET_REST, TODAY, s', r);
    HalfOrders(s, s');
    HalfBids(s, s', r);
    HalfSells(s'.orders);
    NoAsks(s');
    PlacementOwner(DEFAULT_ENV, s, MARKET_REST, TODAY, s', r, SELLER);
  }

  /** With a million more units the seller may offer a million again. */
  lemma SecondSaleAllowed(s: State, s': State)
    requires HalfLeft(s) && Solvent(DEFAULT_ENV.pair, s) && s' == Deposit(s, SELLER, "uftg", UNITS).0
    ensures MayPlace(DEFAULT_ENV, s', SALE, TODAY.day)
    ensures s'.orders == s.orders && s'.bids == s.bids && s'.asks == s.asks && s'.orderSeq == s.orderSeq
  {
  }

  /** A sale again, and the rest of the market buy. */
  ghost predicate UneasyOrders(orders: Orders) {
    && orders.Keys == {1, 2, 3}
    && orders[1].status == Filled
    && orders[2] == NewOrder(MARKET_REST).Take(UNITS).(status := Partial)
    && orders[3] == NewOrder(SALE)
  }

  /** The books are in order, the market buy still on none. */
  ghost predicate Uneasy(s: State) { WellFormed(s) && UneasyOrders(s.orders) && BooksExact(s) && Uncrossed(s) }

  lemma SecondSale(s: State, s': State, r: PlaceResult)
    requires WellFormed(s) && s.orders.Keys == {1, 2} && s.orders[1].status == Filled && s.orderSeq == 2
    requires s.orders[2] == NewOrder(MARKET_REST).Take(UNITS).(status := Partial)
    requires s.bids == [] && s.asks == []
    requires Place(DEFAULT_ENV, s, SALE, TODAY, s', r) && r.Placed? && WellFormed(s')
    ensures Uneasy(s')
  {
    SecondSaleOrders(s, s', r);
    OneSaleMore(s.orders);
    SecondSaleBooks(s, s', r);
  }

  lemma OneSaleMore(orders: Orders)
    requires orders.Keys == {1, 2} && orders[1].status == Filled
    requires orders[2] == NewOrder(MARKET_REST).Take(UNITS).(status := Partial)
    ensures UneasyOrders(orders[3 := NewOrder(SALE)])
  {
  }

  lemma SecondSaleBooks(s: State, s': State, r: PlaceResult)
    requires WellFormed(s) && s.bids == [] && s.asks == []
    requires Place(DEFAULT_ENV, s, SALE, TODAY, s', r) && WellFormed(s')
    ensures BooksExact(s') && Uncrossed(s')
  {
    EmptyBooks(s);
    PlaceKeepsLimits(DEFAULT_ENV, s, SALE, TODAY, s', r);
    PlaceKeepsUncrossed(DEFAULT_ENV, s, SALE, TODAY, s', r);
    BooksExactIsLimitOnly(s');
  }

  lemma EmptyBooks(s: State)
    requires s.bids == [] && s.asks == []
    ensures LimitOnly(s) && Uncrossed(s)
  {
  }

  lemma SecondSaleOrders(s: State, s': State, r: PlaceResult)
    requires WellFormed(s) && s.bids == [] && s.orderSeq == 2
    requires Place(DEFAULT_ENV, s, SALE, TODAY, s', r) && r.Placed?
    ensures s'.orders == s.orders[3 := NewOrder(SALE)]
  {
    UnmatchedIs(DEFAULT_ENV, s, SALE, TODAY, s', r);
  }

  lemma AloneIndexed(orders: Orders, side: Side, x: OrderId)
    requires x in orders && ActiveOn(orders[x], side)
    requires forall id :: id in orders && ActiveOn(orders[id], side) ==> id == x
    ensures IsIndexOf(orders, side, [x])
  {
  }

  lemma UneasyActive(orders: Orders)
    requires UneasyOrders(orders)
    ensures 2 in orders && ActiveOn(orders[2], Buy) && orders[2].typ == Market
    ensures 3 in orders && ActiveOn(orders[3], Sell) && !Apart(orders[2], orders[3])
    ensures forall id :: id in orders && ActiveOn(orders[id], Buy) ==> id == 2
    ensures forall id :: id in orders && ActiveOn(orders[id], Sell) ==> id == 3
  {
  }

  /** Rebuilding puts the market order on the book, where it meets the sale. */
  lemma RestartCrosses(s: State) returns (s': State)
    requires Uneasy(s)
    ensures Rebuilt(s, s') && !BooksExact(s') && !Uncrossed(s')
  {
    UneasyActive(s.orders);
    AloneIndexed(s.orders, Buy, 2);
    AloneIndexed(s.orders, Sell, 3);
    s' := s.(bids := [2], asks := [3]);
    RebuildExact(s, s');
    RebuildUncrossed(s, s');
    assert s.orders[2].Active();
  }

  lemma HalfSane()
    ensures forall i :: 0 <= i < |HalfEvents()| ==> Sane(HalfEvents()[i])
  {
    var opening := Opening(Institutional, UNITS, 2 * VALUE);
    assert forall i :: 0 <= i < |opening| ==> Sane(opening[i]);
  }

  lemma HalfReached() returns (s: State)
    ensures Reaches(HalfEvents(), s) && HalfLeft(s) && Solvent(DEFAULT_ENV.pair, s)
  {
    var s0 := SaleOffered(Institutional, 2 * VALUE);
    RestAllowed(s0);
    var r;
    s, r := ReachesPlace(Opening(Institutional, UNITS, 2 * VALUE) + [PlaceEv(SALE, TODAY)], s0, MARKET_REST);
    ReachesKeeps(HalfEvents(), s);
    MarketRests(s0, s, r);
    HalfSane();
    ReachesSolvent(HalfEvents(), s);
  }

  lemma UneasyReached() returns (s: State)
    ensures Reaches(UneasyEvents(), s) && Uneasy(s)
  {
    var s1 := HalfReached();
    var e := DepositEv(SELLER, "uftg", UNITS);
    var s2 := Deposit(s1, SELLER, "uftg", UNITS).0;
    SecondSaleAllowed(s1, s2);
    ReachesNext(HalfEvents(), s1, e, s2);
    ReachesKeeps(HalfEvents() + [e], s2);
    var r;
    s, r := ReachesPlace(HalfEvents() + [e], s2, SALE);
    ReachesKeeps(UneasyEvents(), s);
    SecondSale(s2, s, r);
  }

  /** A restart with half of a market buy still active lists that order, against the rule that only limit orders
      rest, and leaves a bid and an ask of two wallets at one price. Before it the books were exact and apart. */
  lemma RestartUncovered() returns (s: State, s': State)
    ensures Reaches(UneasyEvents(), s) && Reaches(RestartEvents(), s')
    ensures Rebuilt(s, s') && BooksExact(s) && Uncrossed(s)
    ensures !BooksExact(s') && !Uncrossed(s')
  {
    s := UneasyReached();
    s' := RestartCrosses(s);
    ReachesNext(UneasyEvents(), s, ReloadEv, s');
  }
}
