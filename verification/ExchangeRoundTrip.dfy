/** Cancelling an order that has not traded undoes placing it. */
module ExchangeRoundTrip {
  import opened ExchangeTypes
  import opened OrderBook
  import opened Matching
  import opened ExchangeState
  import opened ExchangeFills
  import opened ExchangeWellFormed
  import opened ExchangeInvariants
  import opened ExchangeTrades

  /** The same money, the same locks, the same trades, and books with the same orders. */
  ghost predicate SameHolders(s: State, r: State) {
    && r.wallets.Keys == s.wallets.Keys
    && (forall w, d :: w in s.wallets ==> r.wallets[w].Balance(d) == s.wallets[w].Balance(d))
    && (forall w, d :: w in s.wallets ==> r.wallets[w].Locked(d) == s.wallets[w].Locked(d))
    && r.trades == s.trades
    && multiset(r.bids) == multiset(s.bids)
    && multiset(r.asks) == multiset(s.asks)
  }

  /** Without a fill the opposite book is stored back as it was. */
  lemma NoFillsKeepBook(s: State, x: OrderId, filled: State)
    requires Ready(s, x) && FillsOf(s, x) == [] && filled == s
    ensures Conclude(s, x, filled).Book(Opposite(s.orders[x].side)) == s.Book(Opposite(s.orders[x].side))
  {
    var t := s.orders[x];
    var book := s.Book(Opposite(t.side));
    RestIsDrop(s.orders, t, t.remaining, book, {});
    DropNone(book, {});
  }

  /** A match without fills changes nothing. */
  lemma NoFillsNoChange(pair: Pair, s: State, x: OrderId, at: Tick)
    requires Fresh(s, x) && Ready(s, x) && FillsOf(s, x) == []
    ensures Match(pair, s, x, at) == s
  {
    assert OrderOk(s.orders[x]);
    NoFillsKeepBook(s, x, s);
    assert s.orders[x := Finish(s.orders[x])] == s.orders;
  }

  /** A placement without trades leaves its order waiting, its funds locked, and its side one order longer. */
  lemma ExecuteWithoutTrades(pair: Pair, s0: State, a: PlaceArgs, at: Tick, s': State, r: PlaceResult)
    requires WellFormed(s0) && a.wallet in s0.wallets && Execute(pair, s0, a, at, s', r)
    requires a.quantity > 0 && (a.typ == Limit ==> a.price > 0)
    requires r.Placed? && r.trades == []
    ensures var s1 := Admit(pair, s0, a);
            && r.id == s1.orderSeq && Fresh(s1, r.id) && s1.orders[r.id] == NewOrder(a)
            && Rested(s1, r.id, s')
  {
    var s1, s2 := ExecuteStages(pair, s0, a, at, s', r);
    MatchTrades(pair, s1, s1.orderSeq, at);
    NoFillsNoChange(pair, s1, s1.orderSeq, at);
  }

  /** Taking an order off the book it was sorted into leaves the orders that were there before. */
  lemma DropRested(orders: Orders, book: seq<OrderId>, before: seq<OrderId>, id: OrderId)
    requires IsSortOf(orders, book, before + [id]) && NoDup(before) && id !in before
    ensures multiset(Drop(book, {id})) == multiset(before)
  {
    assert forall x :: x in before + [id] <==> x in before || x == id;
    SortKeeps(orders, book, before + [id]);
    DropMembers(book, {id});
    DropNoDup(book, {id});
    SameMembers(Drop(book, {id}), before);
  }

  /** The same when the order was not put on the book. */
  lemma RestedThenDropped(s: State, x: OrderId, s': State)
    requires Pending(s, x) && Rested(s, x, s')
    ensures s'.orders == s.orders && s'.wallets == s.wallets && s'.trades == s.trades
    ensures var side := s.orders[x].side;
            && multiset(Drop(s'.Book(side), {x})) == multiset(s.Book(side))
            && s'.Book(Opposite(side)) == s.Book(Opposite(side))
  {
    var o := s.orders[x];
    assert BookOkBut(s, o.side, x);
    if o.remaining > 0 && o.typ == Limit {
      DropRested(s.orders, s'.Book(o.side), s.Book(o.side), x);
    } else {
      DropNone(s.Book(o.side), {x});
    }
  }

  /** Locking an amount for an order and releasing it again. */
  lemma RelockedTwice(s: State, m: State, r: State, id: OrderId, o: Order, o': Order, d: Denom, x: int)
    requires Relocked(s, m, id, o, d, x) && Relocked(m, r, id, o', d, -x) && o'.wallet == o.wallet
    ensures r.wallets.Keys == s.wallets.Keys
    ensures forall w, e :: w in s.wallets ==> r.wallets[w].Locked(e) == s.wallets[w].Locked(e)
    ensures r.orders == s.orders[id := o']
  {
  }

  /** Cancelling the order of such a placement. */
  lemma CancelAfterRest(pair: Pair, s0: State, a: PlaceArgs, id: OrderId, s': State)
    requires WellFormed(s0) && WellFormed(s') && a.wallet in s0.wallets && a.quantity > 0
    requires var s1 := Admit(pair, s0, a);
             id == s1.orderSeq && Fresh(s1, id) && s1.orders[id] == NewOrder(a) && Rested(s1, id, s')
    ensures var (r, error) := Cancel(pair, s', id, a.wallet);
            && error.None?
            && r.orders == s0.orders[id := NewOrder(a).(status := Cancelled)]
            && SameHolders(s0, r)
  {
    var s1 := Admit(pair, s0, a);
    RestedThenDropped(s1, id, s');
    var (r, error) := Cancel(pair, s', id, a.wallet);
    var d, x := LockDenom(pair, a.side), LockAmount(a.side, a.price, a.quantity);
    AdmitRelocks(pair, s0, a);
    CancelRelocks(pair, s', id, a.wallet);
    RelockedTwice(s0, s1, r, id, NewOrder(a), NewOrder(a).(status := Cancelled), d, x);
    CancelBalances(pair, s', id, a.wallet);
    AdmitBalances(pair, s0, a);
  }

  /** Round trip. An order placed without a trade can be cancelled by its wallet, and then every balance,
      every lock, the trade log and the orders on both books are what they were before it was placed. */
  lemma PlaceThenCancel(env: Env, s: State, a: PlaceArgs, at: Tick, s': State, id: OrderId)
    requires WellFormed(s) && env.Sound() && Place(env, s, a, at, s', Placed(id, []))
    ensures WellFormed(s')
    ensures var (r, error) := Cancel(env.pair, s', id, a.wallet);
            && error.None?
            && id !in s.orders && r.orders == s.orders[id := NewOrder(a).(status := Cancelled)]
            && SameHolders(s, r)
  {
    var r := Placed(id, []);
    PlaceWellFormed(env, s, a, at, s', r);
    var s0 := PlaceIsAccepted(env, s, a, at, s', r);
    ExecuteWithoutTrades(env.pair, s0, a, at, s', r);
    CancelAfterRest(env.pair, s0, a, id, s');
    SameHoldersOf(s0, s, Cancel(env.pair, s', id, a.wallet).0);
  }

  /** The volume table does not matter. */
  lemma SameHoldersOf(s0: State, s: State, r: State)
    requires s0 == s.(volumes := s0.volumes) && SameHolders(s0, r)
    ensures SameHolders(s, r)
  {
  }
}
