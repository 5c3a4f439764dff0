/** Exactly when an operation goes through, and that a refused one leaves everything as it was. */
module ExchangeOutcomes {
  import opened Amounts
  import opened ExchangeTypes
  import opened OrderBook
  import opened ExchangeState
  import opened ExchangeWellFormed

  /** What a wallet and an order must meet for the order to be placed. */
  predicate MayPlace(env: Env, s: State, a: PlaceArgs, day: Day) {
    && a.wallet in s.wallets
    && var w := s.wallets[a.wallet];
    && w.active && w.tier != NoTier
    && env.config.tradingEnabled && a.pairId == env.pair.id && env.pair.active
    && a.quantity >= env.pair.minOrderSize && (a.typ == Limit ==> a.price > 0)
    && (w.tier != Institutional ==>
          && env.TierLimit(w.tier) != 0
          && VolumeOf(s.volumes, w.user, day) + QuoteValue(a.price, a.quantity) <= env.TierLimit(w.tier))
    && LockAmount(a.side, a.price, a.quantity) <= w.Available(LockDenom(env.pair, a.side))
  }

  /** Nothing but the volume table differs, and no volume in it. */
  ghost predicate SameButVolumes(s: State, s': State) {
    && s' == s.(volumes := s'.volumes)
    && forall u, day :: VolumeOf(s'.volumes, u, day) == VolumeOf(s.volumes, u, day)
  }

  lemma AcceptedIsAllowed(env: Env, s: State, a: PlaceArgs, day: Day)
    requires a.wallet in s.wallets
    ensures EntryError(env, s, a).None?
            && LimitError(env, s, s.wallets[a.wallet], a.price, a.quantity, day).None?
            && FundsError(env.pair, s.wallets[a.wallet], a).None?
       <==> MayPlace(env, s, a, day)
  {
  }

  /** An order is placed exactly when it may be; otherwise nothing changes. */
  lemma PlacedExactlyWhen(env: Env, s: State, a: PlaceArgs, at: Tick, s': State, r: PlaceResult)
    requires WellFormed(s) && Place(env, s, a, at, s', r)
    ensures r.Placed? <==> MayPlace(env, s, a, at.day)
    ensures r.Rejected? ==> SameButVolumes(s, s')
  {
    if a.wallet in s.wallets { AcceptedIsAllowed(env, s, a, at.day); }
    if r.Placed? {
      PlaceAccepted(env, s, a, at, s', r);
    } else {
      PlaceRejected(env, s, a, at, s', r);
    }
  }

  /** An order is cancelled exactly when it is an active order of the caller; otherwise nothing changes. */
  lemma CancelledExactlyWhen(pair: Pair, s: State, id: OrderId, w: WalletId)
    requires WellFormed(s)
    ensures var (s', error) := Cancel(pair, s, id, w);
            && (error.None? <==> id in s.orders && s.orders[id].wallet == w && s.orders[id].Active())
            && (error.Some? ==> s' == s)
            && (error.None? ==>
                  && s'.orders == s.orders[id := s.orders[id].(status := Cancelled)]
                  && id !in s'.bids && id !in s'.asks)
  {
    if CancelError(s, id, w).None? {
      var o := s.orders[id];
      assert OrderOk(o);
      assert BookOk(s, o.side) && BookOk(s, Opposite(o.side));
      DropMembers(s.Book(o.side), {id});
    }
  }

  /** Money deposited can be withdrawn again exactly when the wallet had no less than nothing free, and then
      every balance is what it was. */
  lemma DepositThenWithdraw(s: State, w: WalletId, d: Denom, amount: int)
    requires Deposit(s, w, d, amount).1.None?
    ensures var s1 := Deposit(s, w, d, amount).0;
            var (s2, error) := Withdraw(s1, w, d, amount);
            && (error.None? <==> s.wallets[w].Available(d) >= 0)
            && (error.None? ==>
                  && s2.wallets.Keys == s.wallets.Keys
                  && forall x, e :: x in s.wallets ==>
                       && s2.wallets[x].Balance(e) == s.wallets[x].Balance(e)
                       && s2.wallets[x].Locked(e) == s.wallets[x].Locked(e))
  {
  }
}
