/** Every operation keeps the state well formed: quantities, statuses, links and both books. */
module ExchangeWellFormed {
  import opened ExchangeTypes
  import opened OrderBook
  import opened Matching
  import opened ExchangeState
  import opened ExchangeFills

  /** `BookOk`, except that order `x` is not listed yet. */
  ghost predicate BookOkBut(s: State, side: Side, x: OrderId) {
    && Lists(s.orders, side, s.Book(side))
    && x !in s.Book(side)
    && forall id :: id in s.orders && id != x && Bookable(s.orders[id], side) ==> id in s.Book(side)
  }

  /** Well formed, but for order `x` being between admission and its place in the book. */
  ghost predicate Pending(s: State, x: OrderId) {
    && Linked(s)
    && (forall w :: w in s.wallets ==> w <= s.walletSeq)
    && (forall id :: id in s.orders ==> id <= s.orderSeq)
    && (forall id :: id in s.orders ==> OrderOk(s.orders[id]))
    && x in s.orders && s.orders[x].status != Cancelled
    && BookOkBut(s, Buy, x)
    && BookOkBut(s, Sell, x)
    && s.tradeSeq == |s.trades|
  }

  lemma AdmitPending(pair: Pair, s: State, a: PlaceArgs)
    requires WellFormed(s) && a.wallet in s.wallets
    requires a.quantity > 0 && (a.typ == Limit ==> a.price > 0)
    ensures var s1 := Admit(pair, s, a);
            Pending(s1, s1.orderSeq) && s1.orders[s1.orderSeq] == NewOrder(a)
            && s1.trades == s.trades && s1.bids == s.bids && s1.asks == s.asks
  {
    var s1 := Admit(pair, s, a);
    var id := s1.orderSeq;
    assert id !in s.orders;
    assert BookOk(s, Buy) && BookOk(s, Sell);
    assert BookOkBut(s1, Buy, id) && BookOkBut(s1, Sell, id);
  }

  /** A pending order that has not traded is ready to be matched. */
  lemma PendingReady(s: State, x: OrderId)
    requires Pending(s, x) && s.orders[x].Active()
    ensures Ready(s, x)
  {
    var t := s.orders[x];
    assert BookOkBut(s, Opposite(t.side), x);
    forall id | id in s.Book(Opposite(t.side)) ensures s.orders[id].remaining > 0 {
      assert OrderOk(s.orders[id]);
    }
  }

  /** The orders after a match: the taker filled and its status set, each maker short of what was filled
      from it, everything off the opposite book untouched. */
  ghost predicate MatchedOrders(s: State, x: OrderId, fills: seq<Fill>, r: State)
    requires x in s.orders
  {
    && r.orders.Keys == s.orders.Keys
    && r.orders[x] == Finish(s.orders[x].Take(Qty(fills)))
    && (forall id :: id in s.orders && id != x ==> MadeFrom(s.orders[id], r.orders[id], FilledFrom(fills, id)))
    && (forall id :: id in s.orders && id !in s.Book(Opposite(s.orders[x].side)) && id != x ==>
          r.orders[id] == s.orders[id])
  }

  /** The rest of the state after a match: the opposite book without the used-up orders, the own side as
      it was, and one new trade a fill. */
  ghost predicate MatchedBooks(s: State, x: OrderId, fills: seq<Fill>, r: State)
    requires x in s.orders
  {
    var own, opp := s.orders[x].side, Opposite(s.orders[x].side);
    && Linked(r) && r.wallets.Keys == s.wallets.Keys
    && r.Book(own) == s.Book(own)
    && r.Book(opp) == Drop(s.Book(opp), Exhausted(r.orders))
    && r.orderSeq == s.orderSeq && r.walletSeq == s.walletSeq
    && r.tradeSeq - s.tradeSeq == |r.trades| - |s.trades| == |fills|
    && s.trades <= r.trades
  }

  ghost predicate Matched(s: State, x: OrderId, r: State)
    requires Ready(s, x)
  {
    var fills := FillsOf(s, x);
    && 0 <= Qty(fills)
    && (s.orders[x].remaining >= 0 ==> Qty(fills) <= s.orders[x].remaining)
    && MatchedOrders(s, x, fills, r)
    && MatchedBooks(s, x, fills, r)
  }

  lemma ConcludeOrders(s: State, x: OrderId, filled: State)
    requires Ready(s, x) && FillsEffect(s, x, FillsOf(s, x), filled)
    ensures MatchedOrders(s, x, FillsOf(s, x), Conclude(s, x, filled))
  {
    var t := s.orders[x];
    var book := s.Book(Opposite(t.side));
    forall id | id in s.orders && id !in book && id != x
      ensures FilledFrom(FillsOf(s, x), id) == 0
    {
      FilledFromOthers(s.orders, t, t.remaining, book, id);
    }
  }

  lemma ConcludeBook(s: State, x: OrderId, filled: State)
    requires Ready(s, x) && FillsEffect(s, x, FillsOf(s, x), filled)
    ensures var opp := Opposite(s.orders[x].side);
            var r := Conclude(s, x, filled);
            r.Book(opp) == Drop(s.Book(opp), Exhausted(r.orders))
  {
    var t := s.orders[x];
    var book := s.Book(Opposite(t.side));
    TakerNotFacing(s.orders, x, book);
    var r := Conclude(s, x, filled);
    RestIsDrop(s.orders, t, t.remaining, book, Exhausted(r.orders));
  }

  lemma ConcludeMatched(s: State, x: OrderId, filled: State)
    requires Ready(s, x) && FillsEffect(s, x, FillsOf(s, x), filled)
    requires Linked(filled) && filled.wallets.Keys == s.wallets.Keys && s.trades <= filled.trades
    ensures Matched(s, x, Conclude(s, x, filled))
  {
    MatchQty(s, x);
    ConcludeOrders(s, x, filled);
    ConcludeBook(s, x, filled);
  }

  lemma MatchQty(s: State, x: OrderId)
    requires Ready(s, x)
    ensures 0 <= Qty(FillsOf(s, x))
    ensures s.orders[x].remaining >= 0 ==> Qty(FillsOf(s, x)) <= s.orders[x].remaining
  {
    var t := s.orders[x];
    PlanSound(s.orders, t, t.remaining, s.Book(Opposite(t.side)));
  }

  lemma MatchEffect(pair: Pair, s: State, x: OrderId, at: Tick)
    requires Ready(s, x)
    ensures Matched(s, x, Match(pair, s, x, at))
  {
    var fills := FillsOf(s, x);
    MatchFillsOk(s, x);
    FillsOrders(pair, s, x, fills, at);
    ConcludeMatched(s, x, ApplyFills(pair, s, x, fills, at));
  }

  /** A match never takes more from an order than it has. */
  lemma MatchWithinMaker(s: State, x: OrderId, id: OrderId)
    requires Ready(s, x) && s.orders[x].remaining >= 0
    requires id in s.Book(Opposite(s.orders[x].side))
    ensures 0 <= FilledFrom(FillsOf(s, x), id) <= s.orders[id].remaining
  {
    var t := s.orders[x];
    var book := s.Book(Opposite(t.side));
    var k :| 0 <= k < |book| && book[k] == id;
    FacingPrefix(s.orders, t, book, k);
    PlanClosedForm(s.orders, t, t.remaining, book, k);
  }

  /** An order just admitted. */
  ghost predicate Fresh(s: State, x: OrderId) {
    Pending(s, x) && s.orders[x].filled == 0 && s.orders[x].status == Open
  }

  /** What a match may do to an order: it stays in order, on its side, at its price, and does not come
      back to life. */
  predicate Kept(o: Order, o': Order) {
    && OrderOk(o')
    && o'.side == o.side && o'.price == o.price && o'.typ == o.typ && o'.wallet == o.wallet && o'.quantity == o.quantity
    && (o'.Active() ==> o.Active())
  }

  lemma MakerKept(o: Order, o': Order, q: int)
    requires OrderOk(o) && MadeFrom(o, o', q) && q <= o.remaining
    ensures Kept(o, o')
  {
  }

  lemma TakerKept(o: Order, q: int)
    requires OrderOk(o) && o.status == Open && 0 <= q <= o.remaining
    ensures Kept(o, Finish(o.Take(q)))
  {
  }

  lemma MatchOrderOk(s: State, x: OrderId, r: State, id: OrderId)
    requires Fresh(s, x) && Ready(s, x) && Matched(s, x, r)
    requires id in s.orders
    ensures Kept(s.orders[id], r.orders[id])
  {
    assert OrderOk(s.orders[id]);
    if id == x {
      assert OrderOk(s.orders[x]);
      TakerKept(s.orders[x], Qty(FillsOf(s, x)));
    } else if id in s.Book(Opposite(s.orders[x].side)) {
      assert OrderOk(s.orders[x]);
      MatchWithinMaker(s, x, id);
      MakerKept(s.orders[id], r.orders[id], FilledFrom(FillsOf(s, x), id));
    }
  }

  /** An order of the book is active after a match just when it has units left. */
  lemma MatchActive(s: State, x: OrderId, r: State, id: OrderId)
    requires Fresh(s, x) && Ready(s, x) && Matched(s, x, r)
    requires id in s.Book(Opposite(s.orders[x].side))
    ensures r.orders[id].Active() <==> r.orders[id].remaining != 0
  {
    MatchOrderOk(s, x, r, id);
    TakerNotFacing(s.orders, x, s.Book(Opposite(s.orders[x].side)));
    assert s.orders[id].Active();
    assert MadeFrom(s.orders[id], r.orders[id], FilledFrom(FillsOf(s, x), id));
  }

  /** Dropping the used-up orders leaves a book of the orders that are still active. */
  lemma DropLists(orders: Orders, orders': Orders, side: Side, book: seq<OrderId>, x: OrderId)
    requires Lists(orders, side, book) && x !in book
    requires orders'.Keys == orders.Keys
    requires forall id :: id in book ==>
               && orders'[id].side == side && orders'[id].Key() == orders[id].Key()
               && (orders'[id].Active() <==> orders'[id].remaining != 0)
    ensures Lists(orders', side, Drop(book, Exhausted(orders')))
    ensures forall id :: id in Drop(book, Exhausted(orders')) <==> id in book && orders'[id].remaining != 0
  {
    var gone := Exhausted(orders');
    DropMembers(book, gone);
    DropNoDup(book, gone);
    DropSorted(orders, book, gone);
  }

  lemma MatchOppositeOk(s: State, x: OrderId, r: State)
    requires Fresh(s, x) && Ready(s, x) && Matched(s, x, r)
    ensures BookOkBut(r, Opposite(s.orders[x].side), x)
  {
    var opp := Opposite(s.orders[x].side);
    assert BookOkBut(s, opp, x);
    forall id | id in s.orders
      ensures r.orders[id].side == s.orders[id].side && r.orders[id].Key() == s.orders[id].Key()
      ensures Bookable(r.orders[id], opp) ==> Bookable(s.orders[id], opp)
      ensures id in s.Book(opp) ==> (r.orders[id].Active() <==> r.orders[id].remaining != 0)
    {
      MatchOrderOk(s, x, r, id);
      if id in s.Book(opp) { MatchActive(s, x, r, id); }
    }
    DropLists(s.orders, r.orders, opp, s.Book(opp), x);
  }

  lemma MatchOwnOk(s: State, x: OrderId, r: State)
    requires Fresh(s, x) && Ready(s, x) && Matched(s, x, r)
    ensures BookOkBut(r, s.orders[x].side, x)
  {
    var side := s.orders[x].side;
    assert BookOkBut(s, side, x) && BookOkBut(s, Opposite(side), x);
    forall id | id in s.orders && id != x && s.orders[id].side == side
      ensures r.orders[id] == s.orders[id]
    {
      assert id !in s.Book(Opposite(side));
    }
    forall id | id in s.orders ensures r.orders[id].side == s.orders[id].side {
      MatchOrderOk(s, x, r, id);
    }
  }

  lemma MatchPending(s: State, x: OrderId, r: State)
    requires Fresh(s, x) && Ready(s, x) && Matched(s, x, r)
    ensures Pending(r, x)
  {
    MatchOwnOk(s, x, r);
    MatchOppositeOk(s, x, r);
    forall id | id in r.orders ensures OrderOk(r.orders[id]) {
      MatchOrderOk(s, x, r, id);
    }
  }

  /** The own-side book once `x` has joined it, or not. */
  lemma RestedOwn(s: State, x: OrderId, s': State)
    requires Pending(s, x) && Rested(s, x, s')
    ensures BookOk(s', s.orders[x].side)
    ensures forall id :: id in s'.Book(s.orders[x].side) ==> id in s.Book(s.orders[x].side) || id == x
  {
    var o := s.orders[x];
    var own := s.Book(o.side);
    assert OrderOk(o);
    assert BookOkBut(s, o.side, x);
    if o.remaining > 0 && o.typ == Limit {
      assert forall id :: id in own + [x] <==> id in own || id == x;
      SortKeeps(s.orders, s'.Book(o.side), own + [x]);
    }
  }

  lemma RestedWellFormed(s: State, x: OrderId, s': State)
    requires Pending(s, x) && Rested(s, x, s')
    ensures WellFormed(s')
    ensures s' == s.WithBook(s.orders[x].side, s'.Book(s.orders[x].side))
    ensures forall id :: id in s'.Book(s.orders[x].side) ==> id in s.Book(s.orders[x].side) || id == x
  {
    var o := s.orders[x];
    RestedOwn(s, x, s');
    assert OrderOk(o);
    assert BookOkBut(s, Opposite(o.side), x);
    assert BookOk(s', Opposite(o.side));
  }

  // ---- The other operations ----

  lemma CancelLists(orders: Orders, side: Side, book: seq<OrderId>, id: OrderId)
    requires id in orders && orders[id].side == side && Lists(orders, side, book)
    ensures Lists(orders[id := orders[id].(status := Cancelled)], side, Drop(book, {id}))
    ensures forall x :: x in Drop(book, {id}) <==> x in book && x != id
  {
    DropMembers(book, {id});
    DropNoDup(book, {id});
    DropSorted(orders, book, {id});
  }

  lemma CancelBooks(s: State, s': State, id: OrderId)
    requires WellFormed(s) && id in s.orders
    requires var side := s.orders[id].side;
             && s'.orders == s.orders[id := s.orders[id].(status := Cancelled)]
             && s'.Book(side) == Drop(s.Book(side), {id})
             && s'.Book(Opposite(side)) == s.Book(Opposite(side))
    ensures BookOk(s', s.orders[id].side)
    ensures BookOk(s', Opposite(s.orders[id].side))
  {
    var side := s.orders[id].side;
    assert BookOk(s, side) && BookOk(s, Opposite(side));
    CancelLists(s.orders, side, s.Book(side), id);
  }

  lemma CancelWellFormed(pair: Pair, s: State, id: OrderId, w: WalletId)
    requires WellFormed(s)
    ensures WellFormed(Cancel(pair, s, id, w).0)
  {
    if CancelError(s, id, w).None? {
      var s' := Cancel(pair, s, id, w).0;
      assert OrderOk(s.orders[id]);
      CancelBooks(s, s', id);
      assert BookOk(s', Buy) && BookOk(s', Sell);
    }
  }

  lemma ReloadWellFormed(s: State, s': State)
    requires WellFormed(s) && Rebuilt(s, s')
    ensures WellFormed(s')
  {
    assert BookOk(s', Buy) && BookOk(s', Sell);
  }

  /** The state after an order was admitted: the order is new in it and can be matched. */
  ghost predicate Admitted(pair: Pair, s0: State, a: PlaceArgs, s1: State) {
    var id := s0.orderSeq + 1;
    && a.wallet in s0.wallets && a.quantity > 0
    && s1 == Admit(pair, s0, a)
    && Fresh(s1, id) && s1.orders[id] == NewOrder(a) && Ready(s1, id) && s1.orderSeq == id
  }

  /** The states a successful placement goes through: checked, admitted, matched. */
  ghost predicate Stages(pair: Pair, s0: State, a: PlaceArgs, at: Tick, s1: State, s2: State) {
    var id := s0.orderSeq + 1;
    && Admitted(pair, s0, a, s1)
    && s2 == Match(pair, s1, id, at)
    && Matched(s1, id, s2) && Pending(s2, id)
  }

  lemma AdmitAdmitted(pair: Pair, s0: State, a: PlaceArgs, s1: State)
    requires WellFormed(s0) && a.wallet in s0.wallets
    requires s1 == Admit(pair, s0, a)
    requires a.quantity > 0 && (a.typ == Limit ==> a.price > 0)
    ensures Admitted(pair, s0, a, s1)
  {
    AdmitPending(pair, s0, a);
    PendingReady(s1, s1.orderSeq);
  }

  lemma AdmitStages(pair: Pair, s0: State, a: PlaceArgs, at: Tick, s1: State)
    requires WellFormed(s0) && a.wallet in s0.wallets
    requires s1 == Admit(pair, s0, a)
    requires a.quantity > 0 && (a.typ == Limit ==> a.price > 0)
    ensures Ready(s1, s1.orderSeq)
    ensures Stages(pair, s0, a, at, s1, Match(pair, s1, s1.orderSeq, at))
  {
    AdmitAdmitted(pair, s0, a, s1);
    FreshMatches(pair, s1, s1.orderSeq, at);
  }

  /** An order just admitted is still waiting for its place once it has been matched. */
  lemma FreshMatches(pair: Pair, s: State, id: OrderId, at: Tick)
    requires Fresh(s, id) && Ready(s, id)
    ensures Matched(s, id, Match(pair, s, id, at)) && Pending(Match(pair, s, id, at), id)
  {
    MatchEffect(pair, s, id, at);
    MatchPending(s, id, Match(pair, s, id, at));
  }

  /** A placement that succeeded passed every check and was executed. */
  lemma PlaceAccepted(env: Env, s: State, a: PlaceArgs, at: Tick, s': State, r: PlaceResult)
    requires WellFormed(s) && Place(env, s, a, at, s', r) && r.Placed?
    ensures EntryError(env, s, a).None?
    ensures a.wallet in s.wallets
    ensures LimitError(env, s, s.wallets[a.wallet], a.price, a.quantity, at.day).None?
    ensures FundsError(env.pair, s.wallets[a.wallet], a).None?
    ensures WellFormed(Touched(env, s, s.wallets[a.wallet], at.day))
    ensures Execute(env.pair, Touched(env, s, s.wallets[a.wallet], at.day), a, at, s', r)
  {
    TouchedWellFormed(env, s, s.wallets[a.wallet], at.day);
  }

  /** A rejected placement leaves the state, or a zero entry in the volume table. */
  lemma PlaceRejected(env: Env, s: State, a: PlaceArgs, at: Tick, s': State, r: PlaceResult)
    requires WellFormed(s) && Place(env, s, a, at, s', r) && r.Rejected?
    ensures s' == s || (a.wallet in s.wallets && s' == Touched(env, s, s.wallets[a.wallet], at.day))
  {
  }

  /** The state a successful placement is executed in. */
  ghost predicate Accepted(env: Env, s: State, a: PlaceArgs, at: Tick, s0: State, s': State, r: PlaceResult) {
    && a.wallet in s.wallets && s0 == Touched(env, s, s.wallets[a.wallet], at.day)
    && WellFormed(s0) && r.Placed?
    && a.quantity > 0 && (a.typ == Limit ==> a.price > 0)
    && LockAmount(a.side, a.price, a.quantity) <= s.wallets[a.wallet].Available(LockDenom(env.pair, a.side))
    && Execute(env.pair, s0, a, at, s', r)
  }

  lemma PlaceIsAccepted(env: Env, s: State, a: PlaceArgs, at: Tick, s': State, r: PlaceResult) returns (s0: State)
    requires WellFormed(s) && env.Sound() && Place(env, s, a, at, s', r) && r.Placed?
    ensures Accepted(env, s, a, at, s0, s', r)
  {
    PlaceAccepted(env, s, a, at, s', r);
    EntryPassed(env, s, a);
    s0 := Touched(env, s, s.wallets[a.wallet], at.day);
  }

  lemma EntryPassed(env: Env, s: State, a: PlaceArgs)
    requires env.Sound() && EntryError(env, s, a).None?
    ensures a.wallet in s.wallets && a.quantity > 0 && (a.typ == Limit ==> a.price > 0)
  {
  }

  lemma ExecuteStages(pair: Pair, s0: State, a: PlaceArgs, at: Tick, s': State, r: PlaceResult)
    returns (s1: State, s2: State)
    requires WellFormed(s0) && a.wallet in s0.wallets && Execute(pair, s0, a, at, s', r)
    requires a.quantity > 0 && (a.typ == Limit ==> a.price > 0)
    ensures Stages(pair, s0, a, at, s1, s2)
    ensures Rested(s2, s1.orderSeq, s')
    ensures r.Placed? && r.id == s1.orderSeq && |s0.trades| <= |s2.trades| && r.trades == s2.trades[|s0.trades|..]
  {
    s1 := Admit(pair, s0, a);
    AdmitStages(pair, s0, a, at, s1);
    s2 := Match(pair, s1, s1.orderSeq, at);
  }

  lemma PlaceWellFormed(env: Env, s: State, a: PlaceArgs, at: Tick, s': State, r: PlaceResult)
    requires WellFormed(s) && env.Sound() && Place(env, s, a, at, s', r)
    ensures WellFormed(s')
  {
    if r.Placed? {
      var s0 := PlaceIsAccepted(env, s, a, at, s', r);
      ExecuteWellFormed(env.pair, s0, a, at, s', r);
    } else {
      PlaceRejected(env, s, a, at, s', r);
      if s' != s { TouchedWellFormed(env, s, s.wallets[a.wallet], at.day); }
    }
  }

  lemma ExecuteWellFormed(pair: Pair, s0: State, a: PlaceArgs, at: Tick, s': State, r: PlaceResult)
    requires WellFormed(s0) && a.wallet in s0.wallets && Execute(pair, s0, a, at, s', r)
    requires a.quantity > 0 && (a.typ == Limit ==> a.price > 0)
    ensures WellFormed(s')
  {
    var s1, s2 := ExecuteStages(pair, s0, a, at, s', r);
    RestedWellFormed(s2, s1.orderSeq, s');
  }

  /** Operations on wallets alone. */
  lemma WalletsWellFormed(s: State, s': State)
    requires WellFormed(s)
    requires s' == s.(wallets := s'.wallets, walletSeq := s'.walletSeq)
    requires s.wallets.Keys <= s'.wallets.Keys
    requires forall w :: w in s'.wallets ==> w <= s'.walletSeq
    ensures WellFormed(s')
  {
    assert BookOk(s, Buy) && BookOk(s, Sell);
    assert BookOk(s', Buy) && BookOk(s', Sell);
  }

  /** Every step from a well-formed state leads to a well-formed state. */
  lemma NextWellFormed(env: Env, s: State, e: Event, s': State)
    requires WellFormed(s) && env.Sound() && Next(env, s, e, s')
    ensures WellFormed(s')
  {
    match e
    case PlaceEv(a, at) =>
      var r :| Place(env, s, a, at, s', r);
      PlaceWellFormed(env, s, a, at, s', r);
    case CancelEv(id, w) => CancelWellFormed(env.pair, s, id, w);
    case ReloadEv => ReloadWellFormed(s, s');
    case _ => WalletsWellFormed(s, s');
  }
}
