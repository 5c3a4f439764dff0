/** The live books list exactly the active limit orders, are never crossed between different wallets, and
    survive a restart exactly when no market order is still active. */
module ExchangeBooks {
  import opened ExchangeTypes
  import opened OrderBook
  import opened Matching
  import opened ExchangeState
  import opened ExchangeFills
  import opened ExchangeWellFormed

  /** Only limit orders are listed. */
  ghost predicate LimitOnly(s: State) {
    && (forall id :: id in s.bids && id in s.orders ==> s.orders[id].typ == Limit)
    && (forall id :: id in s.asks && id in s.orders ==> s.orders[id].typ == Limit)
  }

  /** Each book lists an order if and only if it is an active limit order of that side. */
  ghost predicate BooksExact(s: State) {
    && (forall id :: id in s.bids <==> id in s.orders && Bookable(s.orders[id], Buy))
    && (forall id :: id in s.asks <==> id in s.orders && Bookable(s.orders[id], Sell))
  }

  lemma BooksExactIsLimitOnly(s: State)
    requires WellFormed(s)
    ensures BooksExact(s) <==> LimitOnly(s)
  {
    assert BookOk(s, Buy) && BookOk(s, Sell);
  }

  predicate Apart(bid: Order, ask: Order) {
    bid.wallet != ask.wallet ==> bid.price < ask.price
  }

  /** A resting bid and a resting ask of different wallets do not meet. */
  ghost predicate Uncrossed(s: State) {
    forall b, a :: b in s.bids && a in s.asks && b in s.orders && a in s.orders ==> Apart(s.orders[b], s.orders[a])
  }

  ghost predicate NoActiveMarket(s: State) {
    forall id :: id in s.orders && s.orders[id].Active() ==> s.orders[id].typ == Limit
  }

  /** Steps other than a restart with a market order still active. */
  ghost predicate Clean(s: State, e: Event) { e.ReloadEv? ==> NoActiveMarket(s) }

  // ---- What a placement does to the books ----

  /** Order `x`, placed as `a` asks, may join its own side if it is a limit order; the opposite side only
      shrinks; and if `x` rests, nobody else's order within its limit is left opposite. */
  ghost predicate Joined(s: State, a: PlaceArgs, x: OrderId, s': State) {
    && x !in s.orders && s'.orders.Keys == s.orders.Keys + {x}
    && (forall id :: id in s.orders ==> Kept(s.orders[id], s'.orders[id]))
    && Kept(NewOrder(a), s'.orders[x])
    && (forall id :: id in s'.Book(a.side) ==> id in s.Book(a.side) || id == x)
    && (forall id :: id in s'.Book(Opposite(a.side)) ==> id in s.Book(Opposite(a.side)))
    && (x in s'.Book(a.side) ==>
          && a.typ == Limit
          && forall id :: id in s'.Book(Opposite(a.side)) && id in s.orders ==> !Eligible(NewOrder(a), s.orders[id]))
  }

  /** A limit order that rests found nobody else's order within its limit left in the opposite book. */
  lemma RestingMeetsNobody(s: State, x: OrderId, r: State, id: OrderId)
    requires Fresh(s, x) && Ready(s, x) && Matched(s, x, r)
    requires r.orders[x].remaining > 0
    requires id in r.Book(Opposite(s.orders[x].side))
    ensures id in s.orders && !Eligible(s.orders[x], s.orders[id])
  {
    var t := s.orders[x];
    var book := s.Book(Opposite(t.side));
    DropMembers(book, Exhausted(r.orders));
    assert OrderOk(t);
    TakerNotFacing(s.orders, x, book);
    PlanTotal(s.orders, t, t.remaining, book);
    assert MadeFrom(s.orders[id], r.orders[id], FilledFrom(FillsOf(s, x), id));
    if Eligible(t, s.orders[id]) {
      ShortageFills(s.orders, t, t.remaining, book, id);
    }
  }

  /** A match thins the opposite book out, of everything `x` could trade with if `x` has units left. */
  ghost predicate Thinned(s: State, x: OrderId, r: State)
    requires x in s.orders
  {
    var t := s.orders[x];
    && r.orders.Keys == s.orders.Keys
    && (forall id :: id in s.orders ==> Kept(s.orders[id], r.orders[id]))
    && r.Book(t.side) == s.Book(t.side)
    && (forall id :: id in r.Book(Opposite(t.side)) ==> id in s.Book(Opposite(t.side)))
    && (r.orders[x].remaining > 0 ==>
          forall id :: id in r.Book(Opposite(t.side)) ==> id in s.orders && !Eligible(t, s.orders[id]))
  }

  lemma MatchedThinned(s: State, x: OrderId, r: State)
    requires Fresh(s, x) && Ready(s, x) && Matched(s, x, r)
    ensures Thinned(s, x, r)
  {
    forall id | id in s.orders ensures Kept(s.orders[id], r.orders[id]) {
      MatchOrderOk(s, x, r, id);
    }
    DropMembers(s.Book(Opposite(s.orders[x].side)), Exhausted(r.orders));
    forall id | r.orders[x].remaining > 0 && id in r.Book(Opposite(s.orders[x].side))
      ensures id in s.orders && !Eligible(s.orders[x], s.orders[id])
    {
      RestingMeetsNobody(s, x, r, id);
    }
  }

  lemma RestedJoined(s0: State, a: PlaceArgs, s1: State, x: OrderId, s2: State, s': State)
    requires x !in s0.orders && s1.orders == s0.orders[x := NewOrder(a)]
    requires s1.bids == s0.bids && s1.asks == s0.asks && x !in s0.Book(a.side)
    requires Known(s0.orders, s0.Book(Opposite(a.side)))
    requires Thinned(s1, x, s2) && Pending(s2, x) && Rested(s2, x, s')
    ensures Joined(s0, a, x, s')
  {
    assert s2.orders[x].side == a.side && Kept(NewOrder(a), s2.orders[x]);
    RestedBooks(s2, x, s', a.side);
    ThinnedOld(s0, a, s1, x, s2);
    ThinnedBooks(s0, a, s1, x, s2);
  }

  /** Resting changes the own side only, by at most the order itself, and only for a limit order with units
      left. */
  lemma RestedBooks(s: State, x: OrderId, s': State, side: Side)
    requires Pending(s, x) && Rested(s, x, s') && s.orders[x].side == side && x !in s.Book(side)
    ensures s'.orders == s.orders && s'.Book(Opposite(side)) == s.Book(Opposite(side))
    ensures forall id :: id in s'.Book(side) ==> id in s.Book(side) || id == x
    ensures x in s'.Book(side) ==> s.orders[x].remaining > 0 && s.orders[x].typ == Limit
  {
    RestedWellFormed(s, x, s');
    if x in s'.Book(side) {
      RestedOnlyLimits(s, x, s');
    }
  }

  /** The books after thinning are the own side as it was and a part of the opposite one. */
  lemma ThinnedBooks(s0: State, a: PlaceArgs, s1: State, x: OrderId, s2: State)
    requires x !in s0.orders && s1.orders == s0.orders[x := NewOrder(a)]
    requires s1.bids == s0.bids && s1.asks == s0.asks
    requires Thinned(s1, x, s2)
    ensures s2.Book(a.side) == s0.Book(a.side)
    ensures forall id :: id in s2.Book(Opposite(a.side)) ==> id in s0.Book(Opposite(a.side))
  {
  }

  /** An order that was not listed and is now has units left and is a limit order. */
  lemma RestedOnlyLimits(s: State, x: OrderId, s': State)
    requires x in s.orders && Rested(s, x, s')
    requires x !in s.Book(s.orders[x].side) && x in s'.Book(s.orders[x].side)
    ensures s.orders[x].remaining > 0 && s.orders[x].typ == Limit
  {
  }

  /** What thinning says of the orders that were there before `x`. */
  lemma ThinnedOld(s0: State, a: PlaceArgs, s1: State, x: OrderId, s2: State)
    requires x !in s0.orders && s1.orders == s0.orders[x := NewOrder(a)]
    requires Thinned(s1, x, s2)
    ensures s2.orders.Keys == s0.orders.Keys + {x}
    ensures forall id :: id in s0.orders ==> Kept(s0.orders[id], s2.orders[id])
    ensures s2.orders[x].remaining > 0 ==>
              forall id :: id in s2.Book(Opposite(a.side)) && id in s0.orders ==> !Eligible(NewOrder(a), s0.orders[id])
  {
    forall id | id in s0.orders ensures Kept(s0.orders[id], s2.orders[id]) {
      assert s1.orders[id] == s0.orders[id];
    }
  }

  /** Every successful placement joins its order to the books in this way. */
  lemma PlaceJoined(env: Env, s: State, a: PlaceArgs, at: Tick, s': State, r: PlaceResult)
    requires WellFormed(s) && env.Sound() && Place(env, s, a, at, s', r) && r.Placed?
    ensures r.id == s.orderSeq + 1 && Joined(s, a, r.id, s')
  {
    var s0 := PlaceIsAccepted(env, s, a, at, s', r);
    ExecuteJoined(env.pair, s0, a, at, s', r);
  }

  lemma ExecuteJoined(pair: Pair, s0: State, a: PlaceArgs, at: Tick, s': State, r: PlaceResult)
    requires WellFormed(s0) && a.wallet in s0.wallets && Execute(pair, s0, a, at, s', r)
    requires a.quantity > 0 && (a.typ == Limit ==> a.price > 0)
    ensures r.Placed? && r.id == s0.orderSeq + 1 && Joined(s0, a, r.id, s')
  {
    var s1, s2 := ExecuteStages(pair, s0, a, at, s', r);
    MatchedThinned(s1, s1.orderSeq, s2);
    BooksKnown(s0, a.side, s1.orderSeq);
    RestedJoined(s0, a, s1, s1.orderSeq, s2, s');
  }

  lemma BooksKnown(s: State, side: Side, x: OrderId)
    requires WellFormed(s) && x !in s.orders
    ensures x !in s.Book(side) && Known(s.orders, s.Book(Opposite(side)))
  {
    assert BookOk(s, side) && BookOk(s, Opposite(side));
  }

  // ---- Each step ----

  lemma JoinedKeepsLimits(s: State, a: PlaceArgs, x: OrderId, s': State)
    requires WellFormed(s) && WellFormed(s') && LimitOnly(s) && Joined(s, a, x, s')
    ensures LimitOnly(s')
  {
    assert BookOk(s, Buy) && BookOk(s, Sell);
    var own, opp := a.side, Opposite(a.side);
    forall id | id in s'.Book(own) ensures s'.orders[id].typ == Limit {
      assert id == x || id in s.Book(own);
    }
    forall id | id in s'.Book(opp) ensures s'.orders[id].typ == Limit {
      assert id in s.Book(opp);
    }
  }

  lemma JoinedApart(s: State, a: PlaceArgs, x: OrderId, s': State, b: OrderId, k: OrderId)
    requires WellFormed(s) && Uncrossed(s) && Joined(s, a, x, s')
    requires b in s'.bids && k in s'.asks && b in s'.orders && k in s'.orders
    ensures Apart(s'.orders[b], s'.orders[k])
  {
    assert BookOk(s, Buy) && BookOk(s, Sell);
    if a.side == Buy {
      assert k in s'.Book(Opposite(a.side)) && k in s.asks;
      if b != x { assert b in s'.Book(a.side) && b in s.bids && Apart(s.orders[b], s.orders[k]); }
    } else {
      assert b in s'.Book(Opposite(a.side)) && b in s.bids;
      if k != x { assert k in s'.Book(a.side) && k in s.asks && Apart(s.orders[b], s.orders[k]); }
    }
  }

  /** Fewer listed orders at the same prices stay apart. */
  lemma FewerApart(s: State, s': State)
    requires WellFormed(s) && Uncrossed(s)
    requires forall id :: id in s.orders ==>
               && id in s'.orders
               && s'.orders[id].price == s.orders[id].price && s'.orders[id].wallet == s.orders[id].wallet
    requires (forall x :: x in s'.bids ==> x in s.bids) && forall x :: x in s'.asks ==> x in s.asks
    ensures Uncrossed(s')
  {
    assert BookOk(s, Buy) && BookOk(s, Sell);
    forall b, k | b in s'.bids && k in s'.asks && b in s'.orders && k in s'.orders
      ensures Apart(s'.orders[b], s'.orders[k])
    {
      assert b in s.bids && k in s.asks && Apart(s.orders[b], s.orders[k]);
    }
  }

  lemma CancelFewer(pair: Pair, s: State, id: OrderId, w: WalletId)
    requires WellFormed(s) && CancelError(s, id, w).None?
    ensures var s' := Cancel(pair, s, id, w).0;
            && s'.orders == s.orders[id := s.orders[id].(status := Cancelled)]
            && (forall x :: x in s'.bids ==> x in s.bids) && forall x :: x in s'.asks ==> x in s.asks
  {
    DropMembers(s.Book(s.orders[id].side), {id});
  }

  lemma CancelKeepsUncrossed(pair: Pair, s: State, id: OrderId, w: WalletId)
    requires WellFormed(s) && Uncrossed(s)
    ensures Uncrossed(Cancel(pair, s, id, w).0)
  {
    if CancelError(s, id, w).None? {
      CancelFewer(pair, s, id, w);
      FewerApart(s, Cancel(pair, s, id, w).0);
    }
  }

  lemma CancelKeepsLimits(pair: Pair, s: State, id: OrderId, w: WalletId)
    requires WellFormed(s) && LimitOnly(s)
    ensures LimitOnly(Cancel(pair, s, id, w).0)
  {
    if CancelError(s, id, w).None? { CancelFewer(pair, s, id, w); }
  }

  /** With no active market order the live books already list every active order. */
  lemma ReloadFewer(s: State, s': State)
    requires WellFormed(s) && NoActiveMarket(s) && Rebuilt(s, s')
    ensures LimitOnly(s')
    ensures (forall x :: x in s'.bids ==> x in s.bids) && forall x :: x in s'.asks ==> x in s.asks
  {
    assert BookOk(s, Buy) && BookOk(s, Sell);
  }

  lemma PlaceKeepsUncrossed(env: Env, s: State, a: PlaceArgs, at: Tick, s': State, r: PlaceResult)
    requires WellFormed(s) && env.Sound() && Uncrossed(s) && Place(env, s, a, at, s', r)
    ensures Uncrossed(s')
  {
    if r.Placed? {
      PlaceJoined(env, s, a, at, s', r);
      forall b, k | b in s'.bids && k in s'.asks && b in s'.orders && k in s'.orders
        ensures Apart(s'.orders[b], s'.orders[k])
      {
        JoinedApart(s, a, r.id, s', b, k);
      }
    } else {
      PlaceRejected(env, s, a, at, s', r);
    }
  }

  lemma PlaceKeepsLimits(env: Env, s: State, a: PlaceArgs, at: Tick, s': State, r: PlaceResult)
    requires WellFormed(s) && env.Sound() && LimitOnly(s) && Place(env, s, a, at, s', r)
    ensures LimitOnly(s')
  {
    if r.Placed? {
      PlaceJoined(env, s, a, at, s', r);
      PlaceWellFormed(env, s, a, at, s', r);
      JoinedKeepsLimits(s, a, r.id, s');
    } else {
      PlaceRejected(env, s, a, at, s', r);
    }
  }

  /** From any well-formed state whose bids and asks do not meet, whatever the books list, every step but a
      restart with an active market order lets none meet. */
  lemma NextKeepsUncrossed(env: Env, s: State, e: Event, s': State)
    requires WellFormed(s) && env.Sound() && Uncrossed(s) && Clean(s, e) && Next(env, s, e, s')
    ensures Uncrossed(s')
  {
    match e
    case PlaceEv(a, at) =>
      var r :| Place(env, s, a, at, s', r);
      PlaceKeepsUncrossed(env, s, a, at, s', r);
    case CancelEv(id, w) => CancelKeepsUncrossed(env.pair, s, id, w);
    case ReloadEv =>
      ReloadFewer(s, s');
      FewerApart(s, s');
    case _ =>
      assert s'.orders == s.orders && s'.bids == s.bids && s'.asks == s.asks;
      FewerApart(s, s');
  }

  /** The same steps list limit orders only. */
  lemma NextKeepsBooks(env: Env, s: State, e: Event, s': State)
    requires WellFormed(s) && env.Sound() && LimitOnly(s) && Clean(s, e) && Next(env, s, e, s')
    ensures LimitOnly(s')
    ensures Uncrossed(s) ==> Uncrossed(s')
  {
    if Uncrossed(s) { NextKeepsUncrossed(env, s, e, s'); }
    match e
    case PlaceEv(a, at) =>
      var r :| Place(env, s, a, at, s', r);
      PlaceKeepsLimits(env, s, a, at, s', r);
    case CancelEv(id, w) => CancelKeepsLimits(env.pair, s, id, w);
    case ReloadEv => ReloadFewer(s, s');
    case _ => assert s'.orders == s.orders && s'.bids == s.bids && s'.asks == s.asks;
  }

  // ---- Restart ----

  predicate ActiveOn(o: Order, side: Side) { o.side == side && o.Active() }

  /** Every active order is listed on its side, market orders included. */
  ghost predicate AllListed(s: State) {
    forall id :: id in s.orders && s.orders[id].Active() ==> id in s.Book(s.orders[id].side)
  }

  /** Where only limit orders are listed, every active order is listed exactly when none is a market order. */
  lemma AllListedIsNoMarket(s: State)
    requires WellFormed(s)
    ensures NoActiveMarket(s) ==> AllListed(s)
    ensures LimitOnly(s) && AllListed(s) ==> NoActiveMarket(s)
  {
    assert BookOk(s, Buy) && BookOk(s, Sell);
  }

  lemma RebuiltSideMembers(s: State, side: Side, book: seq<OrderId>)
    requires WellFormed(s) && IsIndexOf(s.orders, side, book)
    ensures (forall id :: id in book <==> id in s.Book(side))
       <==> forall id :: id in s.orders && ActiveOn(s.orders[id], side) ==> id in s.Book(side)
  {
    assert BookOk(s, side);
  }

  lemma SameMultiset(a: seq<OrderId>, b: seq<OrderId>)
    requires NoDup(a) && NoDup(b)
    ensures multiset(a) == multiset(b) <==> forall id :: id in a <==> id in b
  {
    if multiset(a) == multiset(b) {
      assert forall id :: id in a <==> id in multiset(a);
      assert forall id :: id in b <==> id in multiset(b);
    } else if forall id :: id in a <==> id in b {
      SameMembers(a, b);
    }
  }

  /** The two books list the same prices in the same places. */
  ghost predicate SamePrices(orders: Orders, a: seq<OrderId>, b: seq<OrderId>) {
    && Known(orders, a) && Known(orders, b) && |a| == |b|
    && forall i :: 0 <= i < |a| ==> orders[a[i]].price == orders[b[i]].price
  }

  lemma SortsAgreeOnSide(s: State, side: Side, book: seq<OrderId>)
    requires WellFormed(s) && IsIndexOf(s.orders, side, book)
    requires forall id :: id in book <==> id in s.Book(side)
    ensures SamePrices(s.orders, book, s.Book(side))
  {
    var live := s.Book(side);
    assert BookOk(s, side);
    SortsAgreeOnPrices(s.orders, book, live);
    forall i | 0 <= i < |book|
      ensures s.orders[book[i]].price == s.orders[live[i]].price
    {
      assert book[i] in book && live[i] in live;
    }
  }

  /** Whatever the books listed before, rebuilding them lists exactly the active limit orders if and only if
      no market order is still active: an active market order is put on the book. */
  lemma RebuildExact(s: State, s': State)
    requires WellFormed(s) && Rebuilt(s, s')
    ensures BooksExact(s') <==> NoActiveMarket(s)
  {
    if BooksExact(s') {
      forall id | id in s.orders && s.orders[id].Active() ensures s.orders[id].typ == Limit {
        assert id in s'.Book(s.orders[id].side);
      }
    }
  }

  /** Active orders of different wallets on the two sides do not meet, whether they are listed or not. */
  ghost predicate ActiveApart(orders: Orders) {
    forall b, k :: b in orders && k in orders && ActiveOn(orders[b], Buy) && ActiveOn(orders[k], Sell) ==>
      Apart(orders[b], orders[k])
  }

  /** Rebuilt books are uncrossed if and only if the active orders, unlisted market orders included, do not meet. */
  lemma RebuildUncrossed(s: State, s': State)
    requires WellFormed(s) && Rebuilt(s, s')
    ensures Uncrossed(s') <==> ActiveApart(s.orders)
  {
    if Uncrossed(s') {
      forall b, k | b in s.orders && k in s.orders && ActiveOn(s.orders[b], Buy) && ActiveOn(s.orders[k], Sell)
        ensures Apart(s.orders[b], s.orders[k])
      {
        assert b in s'.bids && k in s'.asks;
      }
    }
  }

  /** Rebuilding the books from the stored orders gives back the live books, up to the arrangement inside a price
      level, if and only if every active order was listed. */
  lemma RebuildRestores(s: State, s': State)
    requires WellFormed(s) && Rebuilt(s, s')
    ensures AllListed(s) <==> multiset(s'.bids) == multiset(s.bids) && multiset(s'.asks) == multiset(s.asks)
    ensures AllListed(s) ==> SamePrices(s.orders, s'.bids, s.bids) && SamePrices(s.orders, s'.asks, s.asks)
  {
    assert BookOk(s, Buy) && BookOk(s, Sell);
    RebuiltSideMembers(s, Buy, s'.bids);
    RebuiltSideMembers(s, Sell, s'.asks);
    SameMultiset(s'.bids, s.bids);
    SameMultiset(s'.asks, s.asks);
    AllListedSides(s);
    if AllListed(s) {
      SortsAgreeOnSide(s, Buy, s'.bids);
      SortsAgreeOnSide(s, Sell, s'.asks);
    }
  }

  lemma AllListedSides(s: State)
    ensures AllListed(s)
       <==> && (forall id :: id in s.orders && ActiveOn(s.orders[id], Buy) ==> id in s.bids)
            && (forall id :: id in s.orders && ActiveOn(s.orders[id], Sell) ==> id in s.asks)
  {
  }
}
