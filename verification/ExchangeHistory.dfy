/** What a state of a run owes to the events before it: whose the wallets are, how they stand, and what a suspended
    wallet can no longer do. */
module ExchangeHistory {
  import opened Sums
  import opened ExchangeTypes
  import opened Matching
  import opened ExchangeState
  import opened ExchangeWellFormed
  import opened ExchangeMoney
  import opened ExchangeInvariants
  import opened ExchangeBalances
  import opened ExchangeTrades
  import opened ExchangePlacements
  import opened ExchangeOutcomes
  import opened ExchangeRuns

  // ---- One step ----

  /** The event decides on wallet `w`. */
  predicate Decides(s: State, e: Event, w: WalletId) { e.StandingEv? && e.w == w && w in s.wallets }

  /** A wallet keeps its user, and its tier and standing but for a decision on it. */
  predicate Stands(s: State, e: Event, s': State, w: WalletId) {
    && w in s.wallets && w in s'.wallets
    && s'.wallets[w].user == s.wallets[w].user
    && s'.wallets[w].tier == (if Decides(s, e, w) then e.tier else s.wallets[w].tier)
    && s'.wallets[w].active == (if Decides(s, e, w) then e.active else s.wallets[w].active)
  }

  /** Wallet `w` is new: made for its user, who had no active one, by an event that asked for it while registration was
      open. */
  ghost predicate Opened(env: Env, s: State, e: Event, s': State, w: WalletId) {
    && env.config.registrationOpen
    && w !in s.wallets && w in s'.wallets
    && e == CreateWalletEv(s'.wallets[w].user)
    && s'.wallets[w].tier == NoTier && s'.wallets[w].active
    && (forall d :: s'.wallets[w].Balance(d) == s'.wallets[w].Locked(d) == 0)
    && s'.wallets.Keys == s.wallets.Keys + {w}
    && forall v :: v in s.wallets && s.wallets[v].user == s'.wallets[w].user ==> !s.wallets[v].active
  }

  lemma PlacedKeys(env: Env, s: State, a: PlaceArgs, at: Tick, s': State, r: PlaceResult)
    requires WellFormed(s) && env.Sound() && Place(env, s, a, at, s', r) && r.Placed?
    ensures s'.wallets.Keys == s.wallets.Keys
  {
    var s0, s1 := PlaceStages(env, s, a, at, s', r);
    MatchRestates(env.pair, s1, s1.orderSeq, at);
  }

  lemma PlaceWallets(env: Env, s: State, a: PlaceArgs, at: Tick, s': State, r: PlaceResult, w: WalletId)
    requires WellFormed(s) && env.Sound() && Place(env, s, a, at, s', r)
    ensures s.trades <= s'.trades
    ensures w in s'.wallets <==> w in s.wallets
    ensures w in s.wallets ==> SameOwner(s.wallets[w], s'.wallets[w])
  {
    if r.Placed? {
      PlacedKeys(env, s, a, at, s', r);
      PlacementTrades(env, s, a, at, s', r);
      if w in s.wallets { PlacementOwner(env, s, a, at, s', r, w); }
    } else {
      PlaceRejected(env, s, a, at, s', r);
    }
  }

  lemma DecisionStands(s: State, x: WalletId, tier: Tier, active: bool, w: WalletId)
    ensures var s' := SetStanding(s, x, tier, active);
            && s'.trades == s.trades && s'.wallets.Keys == s.wallets.Keys
            && (w in s.wallets ==> Stands(s, StandingEv(x, tier, active), s', w))
  {
  }

  lemma CreationOpens(env: Env, s: State, user: UserId, w: WalletId)
    requires WellFormed(s)
    ensures var s' := CreateWallet(env, s, user).0;
            && s'.trades == s.trades
            && (w in s.wallets ==> Stands(s, CreateWalletEv(user), s', w))
            && (w !in s.wallets && w in s'.wallets ==> Opened(env, s, CreateWalletEv(user), s', w))
  {
  }

  /** Every step adds to the log at its end, keeps the wallets it found, and adds one only where a user asked. */
  lemma NextWallets(env: Env, s: State, e: Event, s': State, w: WalletId)
    requires WellFormed(s) && env.Sound() && Next(env, s, e, s')
    ensures s.trades <= s'.trades
    ensures w in s.wallets ==> Stands(s, e, s', w)
    ensures w !in s.wallets && w in s'.wallets ==> Opened(env, s, e, s', w)
  {
    match e
    case PlaceEv(a, at) =>
      var r :| Place(env, s, a, at, s', r);
      PlaceWallets(env, s, a, at, s', r, w);
    case StandingEv(x, tier, active) => DecisionStands(s, x, tier, active, w);
    case CreateWalletEv(user) => CreationOpens(env, s, user, w);
    case _ =>
  }

  lemma RunStep(env: Env, states: seq<State>, events: seq<Event>, j: nat, w: WalletId)
    requires env.Sound() && Run(env, states, events) && j < |events|
    ensures states[j].trades <= states[j + 1].trades
    ensures w in states[j].wallets ==> Stands(states[j], events[j], states[j + 1], w)
    ensures w !in states[j].wallets && w in states[j + 1].wallets ==>
              Opened(env, states[j], events[j], states[j + 1], w)
  {
    RunKeepsAccounts(env, states, events, j);
    NextWallets(env, states[j], events[j], states[j + 1], w);
  }

  // ---- Wallets and their standing ----

  /** Every wallet of a run was made for its user by an event that asked for it, when the user had no active one. */
  lemma {:induction false} RunOpened(env: Env, states: seq<State>, events: seq<Event>, k: nat, w: WalletId)
    returns (i: nat)
    requires env.Sound() && Run(env, states, events) && k <= |events| && w in states[k].wallets
    ensures i < k && Opened(env, states[i], events[i], states[i + 1], w)
    ensures events[i] == CreateWalletEv(states[k].wallets[w].user)
  {
    RunStep(env, states, events, k - 1, w);
    if w in states[k - 1].wallets {
      i := RunOpened(env, states, events, k - 1, w);
    } else {
      i := k - 1;
    }
  }

  /** The tier and standing the decisions before event `k` left wallet `w` with. */
  function Standing(states: seq<State>, events: seq<Event>, k: nat, w: WalletId): (Tier, bool)
    requires k <= |events| < |states|
  {
    if k == 0 then (NoTier, true)
    else if Decides(states[k - 1], events[k - 1], w) then (events[k - 1].tier, events[k - 1].active)
    else Standing(states, events, k - 1, w)
  }

  lemma {:induction false} NoDecisionYet(env: Env, states: seq<State>, events: seq<Event>, k: nat, w: WalletId)
    requires env.Sound() && Run(env, states, events) && k <= |events| && w !in states[k].wallets
    ensures Standing(states, events, k, w) == (NoTier, true)
  {
    if k > 0 {
      RunStep(env, states, events, k - 1, w);
      NoDecisionYet(env, states, events, k - 1, w);
    }
  }

  /** In every run a wallet's tier and standing are what the last decision on it said, or no tier and active. */
  lemma {:induction false} RunStanding(env: Env, states: seq<State>, events: seq<Event>, k: nat, w: WalletId)
    requires env.Sound() && Run(env, states, events) && k <= |events| && w in states[k].wallets
    ensures (states[k].wallets[w].tier, states[k].wallets[w].active) == Standing(states, events, k, w)
  {
    if k > 0 {
      RunStep(env, states, events, k - 1, w);
      if w in states[k - 1].wallets {
        RunStanding(env, states, events, k - 1, w);
      } else {
        NoDecisionYet(env, states, events, k - 1, w);
      }
    }
  }

  /** Every order of a run was placed by a wallet that the last decision before had left active and with a tier. */
  lemma RunPlacedByVerified(env: Env, states: seq<State>, events: seq<Event>, k: nat, id: OrderId) returns (i: nat)
    requires env.Sound() && Run(env, states, events) && k <= |events| && id in states[k].orders
    ensures i < k && Appears(states[i], states[i + 1], id)
    ensures var w := states[k].orders[id].wallet;
            && w in states[k].wallets && w in states[i].wallets
            && states[i].wallets[w].active && events[i].PlaceEv?
            && Standing(states, events, i, w).0 != NoTier && Standing(states, events, i, w).1
  {
    i := RunPlaced(env, states, events, k, id);
    RunKeepsAccounts(env, states, events, k);
    var a, at := events[i].args, events[i].at;
    var r :| Place(env, states[i], a, at, states[i + 1], r) && r.Placed?;
    PlacedExactlyWhen(env, states[i], a, at, states[i + 1], r);
    RunStanding(env, states, events, i, a.wallet);
  }

  // ---- Suspended wallets ----

  /** Event `j` suspends wallet `w`, or lets it act again. */
  predicate Suspends(states: seq<State>, events: seq<Event>, j: nat, w: WalletId)
    requires j < |events| < |states|
  {
    Decides(states[j], events[j], w) && !events[j].active
  }

  predicate Reactivates(states: seq<State>, events: seq<Event>, j: nat, w: WalletId)
    requires j < |events| < |states|
  {
    Decides(states[j], events[j], w) && events[j].active
  }

  lemma {:induction false} StaysSuspended(env: Env, states: seq<State>, events: seq<Event>, i: nat, k: nat, w: WalletId)
    requires env.Sound() && Run(env, states, events) && i < k <= |events| && Suspends(states, events, i, w)
    requires forall j :: i < j < k ==> !Reactivates(states, events, j, w)
    ensures w in states[k].wallets && !states[k].wallets[w].active
    ensures states[i].trades <= states[k].trades
  {
    RunStep(env, states, events, k - 1, w);
    if i < k - 1 {
      StaysSuspended(env, states, events, i, k - 1, w);
      assert !Reactivates(states, events, k - 1, w);
    }
  }

  lemma {:induction false} NoFlow(env: Env, states: seq<State>, events: seq<Event>, i: nat, k: nat, w: WalletId,
      d: Denom)
    requires env.Sound() && Run(env, states, events) && i < k <= |events| && Suspends(states, events, i, w)
    requires forall j :: i < j < k ==> !Reactivates(states, events, j, w)
    ensures NetFlowOf(states, events, k, w, d) == NetFlowOf(states, events, i, w, d)
  {
    if i < k - 1 {
      NoFlow(env, states, events, i, k - 1, w, d);
      StaysSuspended(env, states, events, i, k - 1, w);
    }
  }

  lemma {:induction false} NoOrders(env: Env, states: seq<State>, events: seq<Event>, i: nat, k: nat, w: WalletId,
      id: OrderId)
    requires env.Sound() && Run(env, states, events) && i < k <= |events| && Suspends(states, events, i, w)
    requires forall j :: i < j < k ==> !Reactivates(states, events, j, w)
    requires Appears(states[i], states[k], id)
    ensures states[k].orders[id].wallet != w
  {
    var n := RunPlacedByVerified(env, states, events, k, id);
    if n < i {
      OrdersStay(env, states, events, n + 1, i, id);
    } else if n > i {
      StaysSuspended(env, states, events, i, n, w);
    }
  }

  lemma {:induction false} OrdersStay(env: Env, states: seq<State>, events: seq<Event>, i: nat, k: nat, id: OrderId)
    requires env.Sound() && Run(env, states, events) && i <= k <= |events| && id in states[i].orders
    ensures id in states[k].orders
  {
    if i < k {
      OrdersStay(env, states, events, i, k - 1, id);
      TermsKept(env, states, events, k - 1, id);
    }
  }

  /** A suspended wallet can do nothing. From the decision that suspends it until one lets it act again, no order of it
      appears, and in every denomination its balance moves by what the trades logged in between moved: what its resting
      orders bought and sold, and nothing paid in or out. */
  lemma RunSuspended(env: Env, states: seq<State>, events: seq<Event>, i: nat, k: nat, w: WalletId, d: Denom)
    requires env.Sound() && Run(env, states, events) && i < k <= |events| && Suspends(states, events, i, w)
    requires forall j :: i < j < k ==> !Reactivates(states, events, j, w)
    ensures forall id :: Appears(states[i], states[k], id) ==> states[k].orders[id].wallet != w
    ensures states[i].trades <= states[k].trades
    ensures BalanceOf(states[k], w, d) - BalanceOf(states[i], w, d)
         == SeqSum(states[k].trades[|states[i].trades|..], Gained(env.pair, w, d))
  {
    forall id | Appears(states[i], states[k], id) ensures states[k].orders[id].wallet != w {
      NoOrders(env, states, events, i, k, w, id);
    }
    StaysSuspended(env, states, events, i, k, w);
    NoFlow(env, states, events, i, k, w, d);
    RunBalances(env, states, events, i, w, d);
    RunBalances(env, states, events, k, w, d);
    var before, after := states[i].trades, states[k].trades;
    assert after == before + after[|before|..];
    SeqSumConcat(before, after[|before|..], Gained(env.pair, w, d));
  }

  // ---- Deposits and withdrawals ----

  /** Some event of the run before `k` made wallet `w`. */
  ghost predicate WasMade(env: Env, states: seq<State>, events: seq<Event>, k: nat, w: WalletId)
    requires k <= |events| < |states|
  {
    exists i :: 0 <= i < k && Opened(env, states[i], events[i], states[i + 1], w)
  }

  lemma MadeIsThere(env: Env, states: seq<State>, events: seq<Event>, k: nat, w: WalletId)
    requires env.Sound() && Run(env, states, events) && k <= |events|
    ensures WasMade(env, states, events, k, w) <==> w in states[k].wallets
  {
    if w in states[k].wallets {
      var i := RunOpened(env, states, events, k, w);
    } else if WasMade(env, states, events, k, w) {
      var i :| 0 <= i < k && Opened(env, states[i], events[i], states[i + 1], w);
      MadeStays(env, states, events, i, k, events[i].user, w);
    }
  }

  /** What the deposits and withdrawals of a run before `k` and its trades left wallet `w` with beyond its lock. */
  ghost function FreeAt(env: Env, states: seq<State>, events: seq<Event>, k: nat, w: WalletId, d: Denom): int
    requires k <= |events| < |states| && w in states[k].wallets
  {
    NetFlowOf(states, events, k, w, d) + SeqSum(states[k].trades, Gained(env.pair, w, d))
    - states[k].wallets[w].Locked(d)
  }

  /** At any moment of a run a deposit to a wallet goes through exactly when an event made the wallet and the last
      decision on it left it active. A withdrawal needs besides that what was moved in and traded, beyond the lock,
      reaches it. The answer otherwise is the first of these that fails. */
  lemma RunPays(env: Env, states: seq<State>, events: seq<Event>, k: nat, w: WalletId, d: Denom, amount: int)
    requires env.Sound() && Run(env, states, events) && k <= |events|
    ensures var made := WasMade(env, states, events, k, w);
            var suspended := !Standing(states, events, k, w).1;
            && (made ==> w in states[k].wallets)
            && Deposit(states[k], w, d, amount).1
               == (if !made then Some(WalletNotFound) else if suspended then Some(WalletInactive) else None)
            && Withdraw(states[k], w, d, amount).1
               == (if !made then Some(WalletNotFound) else if suspended then Some(WalletInactive)
                   else if amount > FreeAt(env, states, events, k, w, d) then Some(InsufficientBalance) else None)
  {
    MadeIsThere(env, states, events, k, w);
    if w in states[k].wallets {
      RunStanding(env, states, events, k, w);
      RunBalances(env, states, events, k, w, d);
    }
  }

  // ---- One active wallet a user ----

  ghost predicate OneActive(s: State) {
    forall v, w :: v in s.wallets && w in s.wallets ==>
      s.wallets[v].active && s.wallets[w].active && s.wallets[v].user == s.wallets[w].user ==> v == w
  }

  /** No user has two active wallets, in any run that lets no suspended wallet act again. */
  lemma {:induction false} RunOneActive(env: Env, states: seq<State>, events: seq<Event>, k: nat)
    requires env.Sound() && Run(env, states, events) && k <= |events|
    requires forall j, w :: 0 <= j < k && Reactivates(states, events, j, w) ==> states[j].wallets[w].active
    ensures OneActive(states[k])
  {
    if k > 0 {
      RunOneActive(env, states, events, k - 1);
      forall v, w | v in states[k].wallets && w in states[k].wallets
                    && states[k].wallets[v].active && states[k].wallets[w].active
                    && states[k].wallets[v].user == states[k].wallets[w].user
        ensures v == w
      {
        RunStep(env, states, events, k - 1, v);
        RunStep(env, states, events, k - 1, w);
      }
    }
  }

  /** Event `i` of a run made wallet `w` for `user`. */
  ghost predicate MadeFor(env: Env, states: seq<State>, events: seq<Event>, i: nat, user: UserId, w: WalletId)
    requires i < |events| < |states|
  {
    events[i] == CreateWalletEv(user) && Opened(env, states[i], events[i], states[i + 1], w)
  }

  lemma {:induction false} MadeStays(env: Env, states: seq<State>, events: seq<Event>, i: nat, k: nat, user: UserId,
      w: WalletId)
    requires env.Sound() && Run(env, states, events) && i < k <= |events| && MadeFor(env, states, events, i, user, w)
    ensures w in states[k].wallets && states[k].wallets[w].user == user
  {
    RunStep(env, states, events, k - 1, w);
    if i < k - 1 { MadeStays(env, states, events, i, k - 1, user, w); }
  }

  /** At any moment of a run a user gets a wallet exactly when registration is open and every wallet made for the user
      before was left suspended by the last decision on it. */
  lemma RunCreates(env: Env, states: seq<State>, events: seq<Event>, k: nat, user: UserId)
    requires env.Sound() && Run(env, states, events) && k <= |events|
    ensures var e := CreateWallet(env, states[k], user).1;
            && (e == Some(RegistrationClosed) <==> !env.config.registrationOpen)
            && (e.None? <==>
                  && env.config.registrationOpen
                  && forall i, w :: 0 <= i < k && MadeFor(env, states, events, i, user, w) ==>
                       !Standing(states, events, k, w).1)
            && (e.None? || e == Some(RegistrationClosed) || e == Some(WalletExists))
  {
    var s := states[k];
    forall i, w | 0 <= i < k && MadeFor(env, states, events, i, user, w)
      ensures w in s.wallets && s.wallets[w].user == user && s.wallets[w].active == Standing(states, events, k, w).1
    {
      MadeStays(env, states, events, i, k, user, w);
      RunStanding(env, states, events, k, w);
    }
    forall w | w in s.wallets && s.wallets[w].user == user
      ensures exists i :: 0 <= i < k && MadeFor(env, states, events, i, user, w)
    {
      var i := RunOpened(env, states, events, k, w);
      assert MadeFor(env, states, events, i, user, w);
    }
  }

  /** Where no user has two, a user who is refused a wallet for having one gets it once that one is suspended. */
  lemma HolderRefused(env: Env, s: State, user: UserId) returns (w: WalletId)
    requires OneActive(s) && CreateWallet(env, s, user).1 == Some(WalletExists)
    ensures w in s.wallets && s.wallets[w].user == user && s.wallets[w].active
    ensures CreateWallet(env, SetStanding(s, w, s.wallets[w].tier, false), user).1.None?
  {
    w :| w in s.wallets && s.wallets[w].user == user && s.wallets[w].active;
  }

  // ---- Cancelled orders ----

  /** The event is its owner's wish to cancel active order `id`. */
  predicate Revokes(s: State, e: Event, id: OrderId) {
    id in s.orders && s.orders[id].Active() && e == CancelEv(id, s.orders[id].wallet)
  }

  lemma MetCancelsNone(orders: Orders, a: PlaceArgs, x: OrderId, fills: seq<Fill>, orders': Orders, id: OrderId)
    requires OrdersMet(orders, x, NewOrder(a), fills, orders') && id in orders'
    requires id in orders ==> OrderOk(orders[id])
    ensures orders'[id].status == Cancelled ==> id in orders && orders[id].status == Cancelled
  {
  }

  lemma PlaceCancelsNone(env: Env, s: State, a: PlaceArgs, at: Tick, s': State, r: PlaceResult, id: OrderId)
    requires WellFormed(s) && env.Sound() && Place(env, s, a, at, s', r) && id in s'.orders
    ensures s'.orders[id].status == Cancelled ==> id in s.orders && s.orders[id].status == Cancelled
  {
    if r.Placed? {
      PlacementOrders(env, s, a, at, s', r);
      MetCancelsNone(s.orders, a, s.orderSeq + 1, BookFills(s, a), s'.orders, id);
    } else {
      PlaceRejected(env, s, a, at, s', r);
    }
  }

  lemma CancelRevokes(pair: Pair, s: State, x: OrderId, w: WalletId, id: OrderId)
    requires WellFormed(s)
    ensures var s' := Cancel(pair, s, x, w).0;
            && s'.orders.Keys == s.orders.Keys
            && (id in s.orders ==>
                  (s'.orders[id].status == Cancelled
                   <==> s.orders[id].status == Cancelled || Revokes(s, CancelEv(x, w), id)))
  {
    if id in s.orders { assert OrderOk(s.orders[id]); }
  }

  lemma NextCancels(env: Env, s: State, e: Event, s': State, id: OrderId)
    requires WellFormed(s) && env.Sound() && Next(env, s, e, s') && id in s'.orders
    ensures s'.orders[id].status == Cancelled
       <==> id in s.orders && (s.orders[id].status == Cancelled || Revokes(s, e, id))
  {
    if id in s.orders && s.orders[id].status == Cancelled { NextKeepsTerminal(env, s, e, s', id); }
    match e
    case PlaceEv(a, at) =>
      var r :| Place(env, s, a, at, s', r);
      PlaceCancelsNone(env, s, a, at, s', r, id);
    case CancelEv(x, w) => CancelRevokes(env.pair, s, x, w, id);
    case _ => assert s'.orders == s.orders;
  }

  /** Some event of the run before `k` revoked order `id`. */
  ghost predicate WasRevoked(states: seq<State>, events: seq<Event>, k: nat, id: OrderId)
    requires k <= |events| < |states|
  {
    exists i :: 0 <= i < k && Revokes(states[i], events[i], id)
  }

  lemma RevokedBy(states: seq<State>, events: seq<Event>, k: nat, id: OrderId)
    requires k < |events| < |states|
    ensures WasRevoked(states, events, k + 1, id)
       <==> WasRevoked(states, events, k, id) || Revokes(states[k], events[k], id)
  {
  }

  lemma NoneRevoked(env: Env, states: seq<State>, events: seq<Event>, k: nat, id: OrderId)
    requires env.Sound() && Run(env, states, events) && k <= |events| && id !in states[k].orders
    ensures !WasRevoked(states, events, k, id)
  {
    forall i | 0 <= i < k ensures !Revokes(states[i], events[i], id) {
      if id in states[i].orders { OrdersStay(env, states, events, i, k, id); }
    }
  }

  /** An order of a run is cancelled exactly when its own wallet asked for that while it was active. */
  lemma {:induction false} RunCancelled(env: Env, states: seq<State>, events: seq<Event>, k: nat, id: OrderId)
    requires env.Sound() && Run(env, states, events) && k <= |events| && id in states[k].orders
    ensures states[k].orders[id].status == Cancelled <==> WasRevoked(states, events, k, id)
  {
    if k > 0 {
      RunKeepsAccounts(env, states, events, k - 1);
      NextCancels(env, states[k - 1], events[k - 1], states[k], id);
      RevokedBy(states, events, k - 1, id);
      if id in states[k - 1].orders {
        RunCancelled(env, states, events, k - 1, id);
      } else {
        NoneRevoked(env, states, events, k - 1, id);
      }
    }
  }
}
