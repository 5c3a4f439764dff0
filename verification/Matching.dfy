/** The greedy matcher as a function of one side of the book, and a closed form for what it fills. */
module Matching {
  import opened Amounts
  import opened ExchangeTypes
  import opened OrderBook

  datatype Fill = Fill(maker: OrderId, price: int, qty: int)

  /** The maker's price lies beyond a limit taker's own. Market takers have no limit. */
  predicate Beyond(taker: Order, maker: Order) {
    taker.typ == Limit &&
    if taker.side == Buy then maker.price > taker.price else maker.price < taker.price
  }

  /** The makers a taker may trade with: someone else's, within the limit. */
  predicate Eligible(taker: Order, maker: Order) {
    maker.wallet != taker.wallet && !Beyond(taker, maker)
  }

  /** The fills of a taker that still needs `need` units, walking `book` from its best price. */
  function Plan(orders: Orders, taker: Order, need: int, book: seq<OrderId>): seq<Fill>
    requires Known(orders, book)
    decreases |book|
  {
    if book == [] || need <= 0 || Beyond(taker, orders[book[0]]) then []
    else
      var maker := orders[book[0]];
      assert forall id :: id in book[1..] ==> id in book;
      if maker.wallet == taker.wallet then Plan(orders, taker, need, book[1..])
      else
        var q := Min(need, maker.remaining);
        [Fill(book[0], maker.price, q)] + Plan(orders, taker, need - q, book[1..])
  }

  /** What the walk leaves of `book`. */
  function Rest(orders: Orders, taker: Order, need: int, book: seq<OrderId>): seq<OrderId>
    requires Known(orders, book)
    decreases |book|
  {
    if book == [] || need <= 0 || Beyond(taker, orders[book[0]]) then book
    else
      var maker := orders[book[0]];
      assert forall id :: id in book[1..] ==> id in book;
      if maker.wallet == taker.wallet then [book[0]] + Rest(orders, taker, need, book[1..])
      else
        var q := Min(need, maker.remaining);
        var rest := Rest(orders, taker, need - q, book[1..]);
        if maker.remaining == q then rest else [book[0]] + rest
  }

  /** The orders `taker` meets: the other side of the book, sorted, all with units left. */
  ghost predicate Facing(orders: Orders, taker: Order, book: seq<OrderId>) {
    && Known(orders, book)
    && NoDup(book)
    && Sorted(orders, book)
    && forall id :: id in book ==>
         orders[id].side == Opposite(taker.side) && orders[id].remaining > 0 && orders[id].Active()
  }

  lemma FacingTail(orders: Orders, taker: Order, book: seq<OrderId>)
    requires Facing(orders, taker, book) && book != []
    ensures Facing(orders, taker, book[1..])
    ensures book[0] in book && book[0] !in book[1..]
    ensures forall id :: id in book[1..] ==> id in book && id != book[0]
    ensures Beyond(taker, orders[book[0]]) ==> forall id :: id in book ==> Beyond(taker, orders[id])
  {
    forall id | id in book && Beyond(taker, orders[book[0]])
      ensures Beyond(taker, orders[id])
    {
      var k :| 0 <= k < |book| && book[k] == id;
      assert orders[book[0]].Key() <= orders[book[k]].Key();
    }
  }

  /** Matching looks at nothing but the taker's terms and the makers in the book. */
  lemma {:induction false} PlanFrame(o1: Orders, o2: Orders, t1: Order, t2: Order, need: int, book: seq<OrderId>)
    requires Known(o1, book) && Known(o2, book)
    requires forall id :: id in book ==> o1[id] == o2[id]
    requires t1.wallet == t2.wallet && t1.side == t2.side && t1.typ == t2.typ && t1.price == t2.price
    ensures Plan(o1, t1, need, book) == Plan(o2, t2, need, book)
    ensures Rest(o1, t1, need, book) == Rest(o2, t2, need, book)
    decreases |book|
  {
    if book != [] && need > 0 {
      assert book[0] in book && forall id :: id in book[1..] ==> id in book;
      PlanFrame(o1, o2, t1, t2, need, book[1..]);
      PlanFrame(o1, o2, t1, t2, need - Min(need, o1[book[0]].remaining), book[1..]);
    }
  }

  // ---- Totals over fills ----

  function Qty(fills: seq<Fill>): int {
    if fills == [] then 0 else fills[0].qty + Qty(fills[1..])
  }

  function Cost(fills: seq<Fill>): int {
    if fills == [] then 0 else QuoteValue(fills[0].price, fills[0].qty) + Cost(fills[1..])
  }

  function Fees(fills: seq<Fill>, bps: int): int {
    if fills == [] then 0 else FeeOn(fills[0].price, fills[0].qty, bps) + Fees(fills[1..], bps)
  }

  /** What the fills take from maker `id`. */
  function FilledFrom(fills: seq<Fill>, id: OrderId): int {
    if fills == [] then 0
    else (if fills[0].maker == id then fills[0].qty else 0) + FilledFrom(fills[1..], id)
  }

  /** All the units a taker could trade in `book`. */
  function Liquidity(orders: Orders, taker: Order, book: seq<OrderId>): int
    requires Known(orders, book)
  {
    if book == [] then 0
    else
      assert forall id :: id in book[1..] ==> id in book;
      (if Eligible(taker, orders[book[0]]) then orders[book[0]].remaining else 0)
      + Liquidity(orders, taker, book[1..])
  }

  /** `x` units out of `hi`, none when `x` is negative. */
  function Clamp(x: int, hi: int): int {
    if x <= 0 then 0 else Min(x, hi)
  }

  lemma {:induction false} LiquidityNonNegative(orders: Orders, taker: Order, book: seq<OrderId>)
    requires Facing(orders, taker, book)
    ensures Liquidity(orders, taker, book) >= 0
    ensures (forall id :: id in book ==> !Eligible(taker, orders[id])) ==> Liquidity(orders, taker, book) == 0
  {
    if book != [] {
      FacingTail(orders, taker, book);
      LiquidityNonNegative(orders, taker, book[1..]);
    }
  }

  lemma {:induction false} FilledFromOthers(orders: Orders, taker: Order, need: int, book: seq<OrderId>, id: OrderId)
    requires Known(orders, book) && id !in book
    ensures FilledFrom(Plan(orders, taker, need, book), id) == 0
    decreases |book|
  {
    if book != [] {
      assert book[0] in book && forall x :: x in book[1..] ==> x in book;
      FilledFromOthers(orders, taker, need, book[1..], id);
      FilledFromOthers(orders, taker, need - Min(need, orders[book[0]].remaining), book[1..], id);
    }
  }

  /** What the k-th order of the book is due: what the taker still needs once every eligible order ahead of
      it has been used up, capped by what it has; nothing if the taker may not trade with it. */
  function Due(orders: Orders, taker: Order, need: int, book: seq<OrderId>, k: nat): int
    requires Known(orders, book) && k < |book| && Known(orders, book[..k])
  {
    if Eligible(taker, orders[book[k]])
    then Clamp(need - Liquidity(orders, taker, book[..k]), orders[book[k]].remaining)
    else 0
  }

  /** What the head of the book is worth to the taker. */
  function HeadLiquidity(orders: Orders, taker: Order, book: seq<OrderId>): int
    requires Known(orders, book) && book != []
  {
    if Eligible(taker, orders[book[0]]) then orders[book[0]].remaining else 0
  }

  lemma LiquidityTail(orders: Orders, taker: Order, book: seq<OrderId>, k: nat)
    requires Facing(orders, taker, book) && 0 < k <= |book|
    ensures Known(orders, book[1..]) && Known(orders, book[..k]) && Known(orders, book[1..][..k - 1])
    ensures Liquidity(orders, taker, book[..k])
         == HeadLiquidity(orders, taker, book) + Liquidity(orders, taker, book[1..][..k - 1])
    ensures Liquidity(orders, taker, book[1..][..k - 1]) >= 0
  {
    FacingTail(orders, taker, book);
    FacingPrefix(orders, taker, book, k);
    FacingPrefix(orders, taker, book[1..], k - 1);
    LiquidityNonNegative(orders, taker, book[1..][..k - 1]);
    assert book[..k][1..] == book[1..][..k - 1];
  }

  lemma DueTail(orders: Orders, taker: Order, need: int, book: seq<OrderId>, k: nat)
    requires Facing(orders, taker, book) && 0 < k < |book| && need >= 0
    requires Known(orders, book[1..]) && Known(orders, book[..k]) && Known(orders, book[1..][..k - 1])
    ensures var q := if Eligible(taker, orders[book[0]]) then Min(need, orders[book[0]].remaining) else 0;
            Due(orders, taker, need, book, k) == Due(orders, taker, need - q, book[1..], k - 1)
  {
    LiquidityTail(orders, taker, book, k);
    assert book[1..][k - 1] == book[k];
    ClampStep(need, HeadLiquidity(orders, taker, book), Liquidity(orders, taker, book[1..][..k - 1]),
              orders[book[k]].remaining);
  }

  /** Where the walk stops nothing more is due. */
  lemma DueNothing(orders: Orders, taker: Order, need: int, book: seq<OrderId>, k: nat)
    requires Facing(orders, taker, book) && k < |book| && Known(orders, book[..k])
    requires need == 0 || Beyond(taker, orders[book[0]])
    ensures Due(orders, taker, need, book, k) == 0
  {
    FacingTail(orders, taker, book);
    FacingPrefix(orders, taker, book, k);
    LiquidityNonNegative(orders, taker, book[..k]);
    assert book[k] in book;
  }

  /** The closed form: each order of the book is filled with exactly what it is due. */
  lemma {:induction false} PlanClosedForm(orders: Orders, taker: Order, need: int, book: seq<OrderId>, k: nat)
    requires Facing(orders, taker, book) && k < |book| && need >= 0
    requires Known(orders, book[..k])
    ensures FilledFrom(Plan(orders, taker, need, book), book[k]) == Due(orders, taker, need, book, k)
  {
    if need == 0 || Beyond(taker, orders[book[0]]) {
      DueNothing(orders, taker, need, book, k);
    } else {
      FacingTail(orders, taker, book);
      var q := if Eligible(taker, orders[book[0]]) then Min(need, orders[book[0]].remaining) else 0;
      if k == 0 {
        FilledFromOthers(orders, taker, need - q, book[1..], book[0]);
      } else {
        LiquidityTail(orders, taker, book, k);
        PlanClosedForm(orders, taker, need - q, book[1..], k - 1);
        DueTail(orders, taker, need, book, k);
        assert book[1..][k - 1] == book[k];
      }
    }
  }

  /** Taking what the head has, or all that is needed, leaves the same for the orders behind it. */
  lemma ClampStep(need: int, head: int, ahead: int, cap: int)
    requires need >= 0 && ahead >= 0
    ensures Clamp(need - Min(need, head) - ahead, cap) == Clamp(need - (head + ahead), cap)
  {
  }

  lemma FacingPrefix(orders: Orders, taker: Order, book: seq<OrderId>, k: nat)
    requires Facing(orders, taker, book) && k <= |book|
    ensures Facing(orders, taker, book[..k])
  {
    assert forall id :: id in book[..k] ==> id in book;
  }

  /** The taker gets all it needs or all there is. */
  lemma {:induction false} PlanTotal(orders: Orders, taker: Order, need: int, book: seq<OrderId>)
    requires Facing(orders, taker, book) && need >= 0
    ensures Qty(Plan(orders, taker, need, book)) == Min(need, Liquidity(orders, taker, book))
  {
    LiquidityNonNegative(orders, taker, book);
    if book != [] && need > 0 {
      FacingTail(orders, taker, book);
      var maker := orders[book[0]];
      if !Beyond(taker, maker) {
        var q := if maker.wallet == taker.wallet then 0 else Min(need, maker.remaining);
        LiquidityNonNegative(orders, taker, book[1..]);
        PlanTotal(orders, taker, need - q, book[1..]);
      }
    }
  }

  /** A fill is with a maker the taker may trade with, at that maker's price, for a positive number of
      units it has. */
  predicate FillSound(orders: Orders, taker: Order, book: seq<OrderId>, f: Fill)
    requires Known(orders, book)
  {
    && f.maker in book
    && Eligible(taker, orders[f.maker])
    && f.price == orders[f.maker].price
    && 0 < f.qty <= orders[f.maker].remaining
  }

  lemma {:induction false} PlanSound(orders: Orders, taker: Order, need: int, book: seq<OrderId>)
    requires Facing(orders, taker, book)
    ensures forall f :: f in Plan(orders, taker, need, book) ==> FillSound(orders, taker, book, f)
    ensures 0 <= Qty(Plan(orders, taker, need, book))
    ensures need >= 0 ==> Qty(Plan(orders, taker, need, book)) <= need
    decreases |book|
  {
    if book != [] && need > 0 {
      FacingTail(orders, taker, book);
      var maker := orders[book[0]];
      if !Beyond(taker, maker) {
        var q := if maker.wallet == taker.wallet then 0 else Min(need, maker.remaining);
        PlanSound(orders, taker, need - q, book[1..]);
      }
    }
  }

  /** The better of two fills for the taker comes first: their makers differ, the price never improves,
      and the earlier maker has been used up. So at most one maker is touched but not used up. */
  ghost predicate InOrder(orders: Orders, f: Fill, g: Fill) {
    && f.maker in orders && g.maker in orders
    && f.maker != g.maker
    && orders[f.maker].Key() <= orders[g.maker].Key()
    && f.qty == orders[f.maker].remaining
  }

  lemma {:induction false} PlanInOrder(orders: Orders, taker: Order, need: int, book: seq<OrderId>, i: nat, j: nat)
    requires Facing(orders, taker, book)
    requires i < j < |Plan(orders, taker, need, book)|
    ensures InOrder(orders, Plan(orders, taker, need, book)[i], Plan(orders, taker, need, book)[j])
    decreases |book|
  {
    FacingTail(orders, taker, book);
    var maker := orders[book[0]];
    if maker.wallet == taker.wallet {
      PlanInOrder(orders, taker, need, book[1..], i, j);
    } else {
      var q := Min(need, maker.remaining);
      var rest := Plan(orders, taker, need - q, book[1..]);
      assert Plan(orders, taker, need, book)[j] == rest[j - 1];
      if i > 0 {
        assert Plan(orders, taker, need, book)[i] == rest[i - 1];
        PlanInOrder(orders, taker, need - q, book[1..], i - 1, j - 1);
      } else {
        PlanSound(orders, taker, need - q, book[1..]);
        assert rest[j - 1] in rest;
        assert rest != [] ==> q == maker.remaining;
        var k :| 0 <= k < |book[1..]| && book[1..][k] == rest[j - 1].maker;
        assert book[k + 1] == rest[j - 1].maker;
      }
    }
  }

  /** What remains of the book is exactly the orders that were not used up. */
  lemma {:induction false} RestIsDrop(orders: Orders, taker: Order, need: int, book: seq<OrderId>, gone: set<OrderId>)
    requires Facing(orders, taker, book)
    requires forall id :: id in book ==>
               (id in gone <==> FilledFrom(Plan(orders, taker, need, book), id) == orders[id].remaining)
    ensures Rest(orders, taker, need, book) == Drop(book, gone)
  {
    if book == [] {
    } else if need <= 0 || Beyond(taker, orders[book[0]]) {
      DropNone(book, gone);
    } else {
      FacingTail(orders, taker, book);
      var maker := orders[book[0]];
      var q := if maker.wallet == taker.wallet then 0 else Min(need, maker.remaining);
      FilledFromOthers(orders, taker, need - q, book[1..], book[0]);
      RestIsDrop(orders, taker, need - q, book[1..], gone);
    }
  }

  lemma RestMembers(orders: Orders, taker: Order, need: int, book: seq<OrderId>)
    requires Facing(orders, taker, book)
    ensures forall id :: id in Rest(orders, taker, need, book) <==>
              id in book && FilledFrom(Plan(orders, taker, need, book), id) != orders[id].remaining
    ensures Known(orders, Rest(orders, taker, need, book))
    ensures NoDup(Rest(orders, taker, need, book))
    ensures Sorted(orders, Rest(orders, taker, need, book))
  {
    var gone := set id | id in book && FilledFrom(Plan(orders, taker, need, book), id) == orders[id].remaining;
    RestIsDrop(orders, taker, need, book, gone);
    DropMembers(book, gone);
    DropNoDup(book, gone);
    DropSorted(orders, book, gone);
  }

  lemma EarlierUsedUp(orders: Orders, taker: Order, need: int, book: seq<OrderId>, i: nat, j: nat)
    requires Facing(orders, taker, book) && need >= 0 && i < j < |book|
    requires Eligible(taker, orders[book[i]])
    requires FilledFrom(Plan(orders, taker, need, book), book[j]) > 0
    ensures FilledFrom(Plan(orders, taker, need, book), book[i]) == orders[book[i]].remaining
  {
    FacingPrefix(orders, taker, book, i);
    FacingPrefix(orders, taker, book, j);
    PlanClosedForm(orders, taker, need, book, i);
    PlanClosedForm(orders, taker, need, book, j);
    LiquidityGrows(orders, taker, book, i, j);
    assert book[i] in book;
  }

  /** Price priority. An order that trades at all does so only after every eligible order at a strictly
      better price has been used up. */
  lemma PricePriority(orders: Orders, taker: Order, need: int, book: seq<OrderId>, better: OrderId, worse: OrderId)
    requires Facing(orders, taker, book) && need >= 0
    requires better in book && worse in book
    requires Eligible(taker, orders[better]) && orders[better].Key() < orders[worse].Key()
    requires FilledFrom(Plan(orders, taker, need, book), worse) > 0
    ensures FilledFrom(Plan(orders, taker, need, book), better) == orders[better].remaining
  {
    var i :| 0 <= i < |book| && book[i] == better;
    var j :| 0 <= j < |book| && book[j] == worse;
    assert i < j;
    EarlierUsedUp(orders, taker, need, book, i, j);
  }

  lemma {:induction false} LiquidityGrows(orders: Orders, taker: Order, book: seq<OrderId>, i: nat, j: nat)
    requires Facing(orders, taker, book) && i < j <= |book|
    requires Known(orders, book[..i]) && Known(orders, book[..j])
    ensures Liquidity(orders, taker, book[..j])
         >= Liquidity(orders, taker, book[..i])
            + if Eligible(taker, orders[book[i]]) then orders[book[i]].remaining else 0
  {
    LiquidityTail(orders, taker, book, j);
    if i > 0 {
      LiquidityTail(orders, taker, book, i);
      FacingTail(orders, taker, book);
      LiquidityGrows(orders, taker, book[1..], i - 1, j - 1);
      assert book[1..][i - 1] == book[i];
    }
  }

  /** When there is less in the book than the taker needs, every eligible order is used up. */
  lemma ShortageFills(orders: Orders, taker: Order, need: int, book: seq<OrderId>, id: OrderId)
    requires Facing(orders, taker, book) && need >= 0 && id in book
    requires Liquidity(orders, taker, book) < need
    requires Eligible(taker, orders[id])
    ensures FilledFrom(Plan(orders, taker, need, book), id) == orders[id].remaining
  {
    var k :| 0 <= k < |book| && book[k] == id;
    FacingPrefix(orders, taker, book, k);
    assert book[..|book|] == book;
    LiquidityGrows(orders, taker, book, k, |book|);
    PlanClosedForm(orders, taker, need, book, k);
  }

  /** A taker left wanting has emptied the book of everyone it could trade with. */
  lemma LeftoverBlocked(orders: Orders, taker: Order, need: int, book: seq<OrderId>, id: OrderId)
    requires Facing(orders, taker, book) && need >= 0
    requires Qty(Plan(orders, taker, need, book)) < need
    requires id in Rest(orders, taker, need, book)
    ensures id in book && !Eligible(taker, orders[id])
  {
    RestMembers(orders, taker, need, book);
    PlanTotal(orders, taker, need, book);
    if Eligible(taker, orders[id]) {
      ShortageFills(orders, taker, need, book, id);
    }
  }

  // ---- What the taker pays or receives ----

  /** A limit buyer's fills, with the lock kept for what is left, cost no more than the lock taken. */
  lemma {:induction false} CostBound(fills: seq<Fill>, limit: int, quantity: int)
    requires 0 <= limit && Qty(fills) <= quantity
    requires forall i :: 0 <= i < |fills| ==> fills[i].price <= limit && fills[i].qty >= 0
    ensures Cost(fills) + QuoteValue(limit, quantity - Qty(fills)) <= QuoteValue(limit, quantity)
    ensures Qty(fills) >= 0
  {
    if fills != [] {
      CostBound(fills[1..], limit, quantity - fills[0].qty);
      FillFitsLock(limit, fills[0].price, quantity, fills[0].qty);
    }
  }

  lemma {:induction false} FeesBound(fills: seq<Fill>, limit: int, quantity: int, bps: int)
    requires 0 <= limit && Qty(fills) <= quantity && 0 <= bps
    requires forall i :: 0 <= i < |fills| ==> fills[i].price <= limit && fills[i].qty >= 0
    ensures Fees(fills, bps) + FeeOn(limit, quantity - Qty(fills), bps) <= FeeOn(limit, quantity, bps)
    ensures Qty(fills) >= 0
  {
    if fills != [] {
      FeesBound(fills[1..], limit, quantity - fills[0].qty, bps);
      FillFitsFee(limit, fills[0].price, quantity, fills[0].qty, bps);
    }
  }

  /** A limit seller loses at most one unit of the quote to rounding for each fill after the first. */
  lemma {:induction false} ProceedsBound(fills: seq<Fill>, limit: int)
    requires 0 <= limit && fills != []
    requires forall i :: 0 <= i < |fills| ==> limit <= fills[i].price && fills[i].qty >= 0
    ensures Qty(fills) >= 0
    ensures Cost(fills) >= QuoteValue(limit, Qty(fills)) - (|fills| - 1)
  {
    if |fills| == 1 {
      MulMono(limit, fills[0].price, fills[0].qty);
      QuoMono(limit * fills[0].qty, fills[0].price * fills[0].qty, MICRO);
    } else {
      ProceedsBound(fills[1..], limit);
      ProceedsSplit(limit, fills[0].price, fills[0].qty, Qty(fills[1..]));
    }
  }
}
