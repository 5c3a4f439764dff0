/** The exchange as a transition system: what each keeper operation does to the state. */
module ExchangeState {
  import opened Amounts
  import opened ExchangeTypes
  import opened OrderBook
  import opened Matching

  /** The day and block height an operation runs at. */
  datatype Tick = Tick(day: Day, height: int)

  datatype PlaceArgs = PlaceArgs(
    wallet: WalletId,
    pairId: string,
    side: Side,
    typ: OrderType,
    price: int,
    quantity: int)

  datatype PlaceResult = Placed(id: OrderId, trades: seq<Trade>) | Rejected(error: Error)

  // ---- Wallets ----

  function CreateWallet(env: Env, s: State, user: UserId): (State, Option<Error>) {
    if !env.config.registrationOpen then (s, Some(RegistrationClosed))
    else if exists w :: w in s.wallets && s.wallets[w].user == user && s.wallets[w].active then (s, Some(WalletExists))
    else
      var id := s.walletSeq + 1;
      (s.(walletSeq := id, wallets := s.wallets[id := Wallet(user, NoTier, map[], map[], true)]), None)
  }

  function WalletError(s: State, w: WalletId): Option<Error> {
    if w !in s.wallets then Some(WalletNotFound)
    else if !s.wallets[w].active then Some(WalletInactive)
    else None
  }

  function Deposit(s: State, w: WalletId, d: Denom, amount: int): (State, Option<Error>) {
    if WalletError(s, w).Some? then (s, WalletError(s, w))
    else (s.(wallets := s.wallets[w := s.wallets[w].AddBalance(d, amount)]), None)
  }

  function Withdraw(s: State, w: WalletId, d: Denom, amount: int): (State, Option<Error>) {
    if WalletError(s, w).Some? then (s, WalletError(s, w))
    else if amount > s.wallets[w].Available(d) then (s, Some(InsufficientBalance))
    else (s.(wallets := s.wallets[w := s.wallets[w].AddBalance(d, -amount)]), None)
  }

  // ---- Settlement of one trade ----

  /** A wallet after buying `units` worth `q`: the value leaves lock and balance, then the fee. */
  function AsBuyer(pair: Pair, w: Wallet, q: int, units: int, fee: int): Wallet {
    w.AddLocked(pair.quote, -q).AddBalance(pair.quote, -q).AddBalance(pair.base, units).AddBalance(pair.quote, -fee)
  }

  /** A wallet after selling `units` worth `q`: the units leave lock and balance, the value less the fee comes in. */
  function AsSeller(pair: Pair, w: Wallet, q: int, units: int, fee: int): Wallet {
    w.AddLocked(pair.base, -units).AddBalance(pair.base, -units).AddBalance(pair.quote, q - fee)
  }

  /** The wallets after trade `t`: on a taker's buy the maker sells, on a taker's sell the maker buys. */
  function Settle(pair: Pair, ws: Wallets, t: Trade): Wallets
    requires t.makerWallet in ws && t.takerWallet in ws
  {
    var q := QuoteValue(t.price, t.quantity);
    var maker, taker := ws[t.makerWallet], ws[t.takerWallet];
    if t.side == Buy then
      ws[t.makerWallet := AsSeller(pair, maker, q, t.quantity, t.makerFee)]
        [t.takerWallet := AsBuyer(pair, taker, q, t.quantity, t.takerFee)]
    else
      ws[t.makerWallet := AsBuyer(pair, maker, q, t.quantity, t.makerFee)]
        [t.takerWallet := AsSeller(pair, taker, q, t.quantity, t.takerFee)]
  }

  function AddVolume(v: Volumes, u: UserId, day: Day, x: int): Volumes {
    v[(u, day) := VolumeOf(v, u, day) + x]
  }

  // ---- One fill, many fills, a whole match ----

  /** Every order belongs to a wallet that exists. */
  ghost predicate Linked(s: State) {
    forall id :: id in s.orders ==> s.orders[id].wallet in s.wallets
  }

  function TradeOf(pair: Pair, s: State, taker: OrderId, f: Fill, at: Tick): Trade
    requires taker in s.orders && f.maker in s.orders
  {
    Trade(s.tradeSeq + 1, f.maker, taker, s.orders[f.maker].wallet, s.orders[taker].wallet,
          s.orders[taker].side, f.price, f.qty,
          FeeOn(f.price, f.qty, pair.makerFee), FeeOn(f.price, f.qty, pair.takerFee), at.day, at.height)
  }

  function MakerAfter(o: Order, q: int): Order {
    o.Take(q).(status := if o.remaining - q == 0 then Filled else Partial)
  }

  /** The two orders of a fill afterwards; the taker's status is left for the end of the walk. */
  function OrdersAfter(orders: Orders, taker: OrderId, f: Fill): Orders
    requires taker in orders && f.maker in orders
  {
    orders[taker := orders[taker].Take(f.qty)][f.maker := MakerAfter(orders[f.maker], f.qty)]
  }

  function VolumesAfter(s: State, t: Trade): Volumes
    requires t.makerWallet in s.wallets && t.takerWallet in s.wallets
  {
    var q := QuoteValue(t.price, t.quantity);
    AddVolume(AddVolume(s.volumes, s.wallets[t.makerWallet].user, t.day, q), s.wallets[t.takerWallet].user, t.day, q)
  }

  function ApplyFill(pair: Pair, s: State, taker: OrderId, f: Fill, at: Tick): (r: State)
    requires Linked(s) && taker in s.orders && f.maker in s.orders
    ensures r.orders.Keys == s.orders.Keys && r.wallets.Keys == s.wallets.Keys && Linked(r)
    ensures s.trades <= r.trades
  {
    var t := TradeOf(pair, s, taker, f, at);
    s.(wallets := Settle(pair, s.wallets, t),
       orders := OrdersAfter(s.orders, taker, f),
       trades := s.trades + [t],
       volumes := VolumesAfter(s, t),
       tradeSeq := s.tradeSeq + 1)
  }

  function ApplyFills(pair: Pair, s: State, taker: OrderId, fills: seq<Fill>, at: Tick): (r: State)
    requires Linked(s) && taker in s.orders
    requires forall f :: f in fills ==> f.maker in s.orders
    ensures r.orders.Keys == s.orders.Keys && r.wallets.Keys == s.wallets.Keys && Linked(r)
    ensures s.trades <= r.trades
    decreases |fills|
  {
    if fills == [] then s
    else ApplyFills(pair, ApplyFill(pair, s, taker, fills[0], at), taker, fills[1..], at)
  }

  /** The taker's status once the walk is over. */
  function Finish(o: Order): Order {
    if o.remaining == 0 then o.(status := Filled)
    else if o.filled > 0 then o.(status := Partial)
    else o
  }

  lemma PlanMakersKnown(orders: Orders, taker: Order, need: int, book: seq<OrderId>)
    requires Known(orders, book)
    ensures forall f :: f in Plan(orders, taker, need, book) ==> f.maker in orders
    decreases |book|
  {
    if book != [] {
      assert forall id :: id in book[1..] ==> id in book;
      PlanMakersKnown(orders, taker, need, book[1..]);
      PlanMakersKnown(orders, taker, need - Min(need, orders[book[0]].remaining), book[1..]);
    }
  }

  /** The fills of `taker` along `book`. */
  function FillsAlong(s: State, taker: OrderId, book: seq<OrderId>): (fills: seq<Fill>)
    requires taker in s.orders && Known(s.orders, book)
    ensures forall f :: f in fills ==> f.maker in s.orders
  {
    var o := s.orders[taker];
    PlanMakersKnown(s.orders, o, o.remaining, book);
    Plan(s.orders, o, o.remaining, book)
  }

  function FillsOf(s: State, taker: OrderId): (fills: seq<Fill>)
    requires taker in s.orders && Known(s.orders, s.Book(Opposite(s.orders[taker].side)))
    ensures forall f :: f in fills ==> f.maker in s.orders
  {
    FillsAlong(s, taker, s.Book(Opposite(s.orders[taker].side)))
  }

  /** The end of a walk whose fills turned `s` into `filled`: the taker gets its status, and what is left
      of the opposite book is stored. */
  function Conclude(s: State, taker: OrderId, filled: State): State
    requires taker in s.orders && taker in filled.orders
    requires Known(s.orders, s.Book(Opposite(s.orders[taker].side)))
  {
    var o := s.orders[taker];
    filled.(orders := filled.orders[taker := Finish(filled.orders[taker])])
    .WithBook(Opposite(o.side), Rest(s.orders, o, o.remaining, s.Book(Opposite(o.side))))
  }

  function Match(pair: Pair, s: State, taker: OrderId, at: Tick): (r: State)
    requires Linked(s) && taker in s.orders
    requires Known(s.orders, s.Book(Opposite(s.orders[taker].side)))
    ensures s.trades <= r.trades
  {
    Conclude(s, taker, ApplyFills(pair, s, taker, FillsOf(s, taker), at))
  }

  // ---- Placing an order ----

  function EntryError(env: Env, s: State, a: PlaceArgs): Option<Error> {
    if WalletError(s, a.wallet).Some? then WalletError(s, a.wallet)
    else if s.wallets[a.wallet].tier == NoTier then Some(InsufficientKYC)
    else if !env.config.tradingEnabled then Some(TradingDisabled)
    else if a.pairId != env.pair.id then Some(PairNotFound)
    else if !env.pair.active then Some(PairInactive)
    else if a.quantity < env.pair.minOrderSize then Some(BelowMinOrder)
    else if a.typ == Limit && a.price <= 0 then Some(InvalidPrice)
    else None
  }

  function LimitError(env: Env, s: State, w: Wallet, price: int, quantity: int, day: Day): Option<Error> {
    if w.tier == Institutional then None
    else if env.TierLimit(w.tier) == 0 then Some(InsufficientKYC)
    else if VolumeOf(s.volumes, w.user, day) + QuoteValue(price, quantity) > env.TierLimit(w.tier)
    then Some(DailyLimitExceeded)
    else None
  }

  /** The limit check leaves a zero entry behind for a user that had none. */
  function Touched(env: Env, s: State, w: Wallet, day: Day): State {
    if w.tier == Institutional || env.TierLimit(w.tier) == 0 then s
    else s.(volumes := s.volumes[(w.user, day) := VolumeOf(s.volumes, w.user, day)])
  }

  /** The denomination and amount an order locks. */
  function LockDenom(pair: Pair, side: Side): Denom { if side == Buy then pair.quote else pair.base }

  function LockAmount(side: Side, price: int, quantity: int): int {
    if side == Buy then QuoteValue(price, quantity) else quantity
  }

  function FundsError(pair: Pair, w: Wallet, a: PlaceArgs): Option<Error> {
    if LockAmount(a.side, a.price, a.quantity) > w.Available(LockDenom(pair, a.side))
    then Some(InsufficientBalance) else None
  }

  function NewOrder(a: PlaceArgs): Order {
    Order(a.wallet, a.side, a.typ, a.price, a.quantity, 0, a.quantity, Open)
  }

  function Admit(pair: Pair, s: State, a: PlaceArgs): State
    requires a.wallet in s.wallets
  {
    var id := s.orderSeq + 1;
    var w := s.wallets[a.wallet].AddLocked(LockDenom(pair, a.side), LockAmount(a.side, a.price, a.quantity));
    s.(wallets := s.wallets[a.wallet := w], orders := s.orders[id := NewOrder(a)], orderSeq := id)
  }

  /** A limit order with units left joins its own side, which is sorted again. */
  ghost predicate Rested(s: State, id: OrderId, s': State)
    requires id in s.orders
  {
    var o := s.orders[id];
    if o.remaining > 0 && o.typ == Limit then
      && s' == s.WithBook(o.side, s'.Book(o.side))
      && IsSortOf(s.orders, s'.Book(o.side), s.Book(o.side) + [id])
    else s' == s
  }

  /** A checked order is admitted, matched and, if it may rest, put on the book. */
  ghost predicate Execute(pair: Pair, s: State, a: PlaceArgs, at: Tick, s': State, r: PlaceResult)
    requires WellFormed(s) && a.wallet in s.wallets
  {
    var id := s.orderSeq + 1;
    var s2 := Match(pair, Admit(pair, s, a), id, at);
    r == Placed(id, s2.trades[|s.trades|..]) && Rested(s2, id, s')
  }

  lemma TouchedWellFormed(env: Env, s: State, w: Wallet, day: Day)
    requires WellFormed(s)
    ensures WellFormed(Touched(env, s, w, day))
  {
    assert BookOk(s, Buy) && BookOk(s, Sell);
    assert BookOk(Touched(env, s, w, day), Buy) && BookOk(Touched(env, s, w, day), Sell);
  }

  ghost predicate Place(env: Env, s: State, a: PlaceArgs, at: Tick, s': State, r: PlaceResult)
    requires WellFormed(s)
  {
    if EntryError(env, s, a).Some? then s' == s && r == Rejected(EntryError(env, s, a).value)
    else
      var w := s.wallets[a.wallet];
      var s0 := Touched(env, s, w, at.day);
      var limit := LimitError(env, s, w, a.price, a.quantity, at.day);
      if limit.Some? then s' == s0 && r == Rejected(limit.value)
      else if FundsError(env.pair, w, a).Some? then s' == s0 && r == Rejected(InsufficientBalance)
      else
        TouchedWellFormed(env, s, w, at.day);
        Execute(env.pair, s0, a, at, s', r)
  }

  /** What is left of a placement once the entry and limit checks have passed. */
  lemma PlaceChecked(env: Env, s: State, a: PlaceArgs, at: Tick, s': State, r: PlaceResult)
    requires WellFormed(s) && EntryError(env, s, a).None?
    requires LimitError(env, s, s.wallets[a.wallet], a.price, a.quantity, at.day).None?
    requires WellFormed(Touched(env, s, s.wallets[a.wallet], at.day))
    requires var s0 := Touched(env, s, s.wallets[a.wallet], at.day);
             if FundsError(env.pair, s.wallets[a.wallet], a).Some?
             then s' == s0 && r == Rejected(InsufficientBalance)
             else Execute(env.pair, s0, a, at, s', r)
    ensures Place(env, s, a, at, s', r)
  {
  }

  // ---- Cancelling and rebuilding ----

  function CancelError(s: State, id: OrderId, w: WalletId): Option<Error> {
    if id !in s.orders then Some(OrderNotFound)
    else if s.orders[id].wallet != w then Some(Unauthorized)
    else if s.orders[id].status == Filled then Some(OrderFilled)
    else if s.orders[id].status == Cancelled then Some(OrderCancelled)
    else None
  }

  /** The state once order `id` has released its lock, is marked and left its book. */
  function Closed(pair: Pair, s: State, id: OrderId): State
    requires Linked(s) && id in s.orders
  {
    var o := s.orders[id];
    var wallet := s.wallets[o.wallet].AddLocked(LockDenom(pair, o.side), -LockAmount(o.side, o.price, o.remaining));
    s.(wallets := s.wallets[o.wallet := wallet], orders := s.orders[id := o.(status := Cancelled)])
    .WithBook(o.side, Drop(s.Book(o.side), {id}))
  }

  function Cancel(pair: Pair, s: State, id: OrderId, w: WalletId): (State, Option<Error>)
    requires Linked(s)
  {
    if CancelError(s, id, w).Some? then (s, CancelError(s, id, w)) else (Closed(pair, s, id), None)
  }

  /** `book` lists every active order of `side` once, sorted by price. */
  ghost predicate IsIndexOf(orders: Orders, side: Side, book: seq<OrderId>) {
    && NoDup(book)
    && (forall id :: id in book <==> id in orders && orders[id].side == side && orders[id].Active())
    && Sorted(orders, book)
  }

  ghost predicate Rebuilt(s: State, s': State) {
    && s' == s.(bids := s'.bids, asks := s'.asks)
    && IsIndexOf(s.orders, Buy, s'.bids)
    && IsIndexOf(s.orders, Sell, s'.asks)
  }

  // ---- Well-formed states ----

  /** Quantities add up and the status says what they say. */
  predicate OrderOk(o: Order) {
    && 0 <= o.filled && 0 <= o.remaining && 0 < o.quantity
    && o.filled + o.remaining == o.quantity
    && (o.status == Filled <==> o.remaining == 0)
    && (o.status == Open ==> o.filled == 0)
    && (o.status == Partial ==> o.filled > 0)
    && o.status != Expired
    && (o.typ == Limit ==> o.price > 0)
  }

  /** `book` is sorted and lists active orders of its side, each once. */
  ghost predicate Lists(orders: Orders, side: Side, book: seq<OrderId>) {
    && Known(orders, book)
    && NoDup(book)
    && Sorted(orders, book)
    && forall id :: id in book ==> orders[id].side == side && orders[id].Active()
  }

  /** An order that belongs in book `side`. */
  predicate Bookable(o: Order, side: Side) {
    o.side == side && o.Active() && o.typ == Limit
  }

  /** Book `side` is sorted, lists active orders of its side once, and misses no active limit order. */
  ghost predicate BookOk(s: State, side: Side) {
    && Lists(s.orders, side, s.Book(side))
    && forall id :: id in s.orders && Bookable(s.orders[id], side) ==> id in s.Book(side)
  }

  ghost predicate WellFormed(s: State) {
    && Linked(s)
    && (forall w :: w in s.wallets ==> w <= s.walletSeq)
    && (forall id :: id in s.orders ==> id <= s.orderSeq)
    && (forall id :: id in s.orders ==> OrderOk(s.orders[id]))
    && BookOk(s, Buy)
    && BookOk(s, Sell)
    && s.tradeSeq == |s.trades|
  }

  // ---- Steps and runs ----

  datatype Event =
    | CreateWalletEv(user: UserId)
    | DepositEv(w: WalletId, d: Denom, amount: int)
    | WithdrawEv(w: WalletId, d: Denom, amount: int)
    | StandingEv(w: WalletId, tier: Tier, active: bool)
    | PlaceEv(args: PlaceArgs, at: Tick)
    | CancelEv(id: OrderId, w: WalletId)
    | ReloadEv

  /** The outcome of a verification decision: a wallet's tier and standing change, nothing else. */
  function SetStanding(s: State, w: WalletId, tier: Tier, active: bool): State {
    if w !in s.wallets then s
    else s.(wallets := s.wallets[w := s.wallets[w].(tier := tier, active := active)])
  }

  ghost predicate Next(env: Env, s: State, e: Event, s': State)
    requires WellFormed(s)
  {
    match e
    case CreateWalletEv(user) => s' == CreateWallet(env, s, user).0
    case DepositEv(w, d, amount) => s' == Deposit(s, w, d, amount).0
    case WithdrawEv(w, d, amount) => s' == Withdraw(s, w, d, amount).0
    case StandingEv(w, tier, active) => s' == SetStanding(s, w, tier, active)
    case PlaceEv(a, at) => exists r :: Place(env, s, a, at, s', r)
    case CancelEv(id, w) => s' == Cancel(env.pair, s, id, w).0
    case ReloadEv => Rebuilt(s, s')
  }

  /** `states` starts empty and each step is one event. The guard on a step only makes `Next` defined:
      every state of a run is well formed. */
  ghost predicate Run(env: Env, states: seq<State>, events: seq<Event>) {
    && |states| == |events| + 1
    && states[0] == INIT_STATE
    && forall i :: 0 <= i < |events| ==> WellFormed(states[i]) ==> Next(env, states[i], events[i], states[i + 1])
  }
}
