/** The depth snapshot of one side of the book: one level a price, best first, cut to a depth. */
module OrderBookDepth {
  import opened ExchangeTypes
  import opened OrderBook

  datatype Level = Level(price: int, quantity: int, orders: int)

  datatype Snapshot = Snapshot(bids: seq<Level>, asks: seq<Level>, lastPrice: int)

  function QtyAt(orders: Orders, book: seq<OrderId>, price: int): int
    requires Known(orders, book)
  {
    if book == [] then 0
    else
      var n := |book| - 1;
      assert forall id :: id in book[..n] ==> id in book;
      QtyAt(orders, book[..n], price) + if orders[book[n]].price == price then orders[book[n]].remaining else 0
  }

  function CountAt(orders: Orders, book: seq<OrderId>, price: int): nat
    requires Known(orders, book)
  {
    if book == [] then 0
    else
      var n := |book| - 1;
      assert forall id :: id in book[..n] ==> id in book;
      CountAt(orders, book[..n], price) + if orders[book[n]].price == price then 1 else 0
  }

  function LevelAt(orders: Orders, book: seq<OrderId>, price: int): Level
    requires Known(orders, book)
  {
    Level(price, QtyAt(orders, book, price), CountAt(orders, book, price))
  }

  predicate Better(side: Side, p: int, q: int) { if side == Buy then p > q else p < q }

  ghost predicate BestFirst(side: Side, levels: seq<Level>) {
    forall i, j :: 0 <= i < j < |levels| ==> Better(side, levels[i].price, levels[j].price)
  }

  ghost predicate Listed(levels: seq<Level>, price: int) {
    exists l :: l in levels && l.price == price
  }

  /** The levels are in strict price order, each sums up the orders at its price, and a price of the book
      goes unlisted only when `depth` levels, all better, are listed. */
  ghost predicate IsDepth(orders: Orders, side: Side, book: seq<OrderId>, depth: int, levels: seq<Level>)
    requires Known(orders, book)
  {
    && BestFirst(side, levels)
    && (forall l :: l in levels ==> CountAt(orders, book, l.price) > 0 && l == LevelAt(orders, book, l.price))
    && (depth > 0 ==> |levels| <= depth)
    && (forall p {:trigger CountAt(orders, book, p)} :: CountAt(orders, book, p) > 0 && !Listed(levels, p) ==>
          depth > 0 && |levels| == depth && forall l :: l in levels ==> Better(side, l.price, p))
  }

  // ---- The snapshot is determined, and adds up to the book ----

  /** With the same levels before it, a level better than its counterpart has a price the other list lacks. */
  lemma UnlistedAhead(side: Side, a: seq<Level>, b: seq<Level>, i: nat, p: int)
    requires BestFirst(side, a) && BestFirst(side, b)
    requires i <= |a| && i <= |b| && a[..i] == b[..i]
    requires forall k :: 0 <= k < i ==> Better(side, a[k].price, p)
    requires i < |b| ==> Better(side, p, b[i].price)
    ensures !Listed(b, p)
  {
    forall k | 0 <= k < |b| ensures b[k].price != p {
      if k < i {
        assert b[..i][k] == a[..i][k];
      } else if k > i {
        assert Better(side, b[i].price, b[k].price);
      }
    }
  }

  lemma SamePriceSameLevel(orders: Orders, side: Side, book: seq<OrderId>, depth: int, a: seq<Level>,
      b: seq<Level>, i: nat)
    requires Known(orders, book) && IsDepth(orders, side, book, depth, a) && IsDepth(orders, side, book, depth, b)
    requires i < |a| && i < |b| && a[..i] == b[..i]
    ensures !Better(side, a[i].price, b[i].price)
  {
    assert a[i] in a && b[i] in b;
    if Better(side, a[i].price, b[i].price) {
      UnlistedAhead(side, a, b, i, a[i].price);
      assert false;
    }
  }

  /** No two different lists of levels are the snapshot of one book. */
  lemma {:induction false} DepthPrefix(orders: Orders, side: Side, book: seq<OrderId>, depth: int,
                                       a: seq<Level>, b: seq<Level>, i: nat)
    requires Known(orders, book) && IsDepth(orders, side, book, depth, a) && IsDepth(orders, side, book, depth, b)
    requires i <= |a| && i <= |b|
    ensures a[..i] == b[..i]
  {
    if i > 0 {
      DepthPrefix(orders, side, book, depth, a, b, i - 1);
      SamePriceSameLevel(orders, side, book, depth, a, b, i - 1);
      SamePriceSameLevel(orders, side, book, depth, b, a, i - 1);
      assert a[i - 1] in a && b[i - 1] in b;
      assert a[..i] == a[..i - 1] + [a[i - 1]] && b[..i] == b[..i - 1] + [b[i - 1]];
    }
  }

  lemma DepthNotShorter(orders: Orders, side: Side, book: seq<OrderId>, depth: int, a: seq<Level>, b: seq<Level>)
    requires Known(orders, book) && IsDepth(orders, side, book, depth, a) && IsDepth(orders, side, book, depth, b)
    ensures |a| >= |b|
  {
    if |a| < |b| {
      DepthPrefix(orders, side, book, depth, a, b, |a|);
      assert b[|a|] in b;
      assert forall k :: 0 <= k < |a| ==> Better(side, b[k].price, b[|a|].price);
      UnlistedAhead(side, b, a, |a|, b[|a|].price);
      assert false;
    }
  }

  lemma DepthUnique(orders: Orders, side: Side, book: seq<OrderId>, depth: int, a: seq<Level>, b: seq<Level>)
    requires Known(orders, book) && IsDepth(orders, side, book, depth, a) && IsDepth(orders, side, book, depth, b)
    ensures a == b
  {
    DepthNotShorter(orders, side, book, depth, a, b);
    DepthNotShorter(orders, side, book, depth, b, a);
    DepthPrefix(orders, side, book, depth, a, b, |a|);
    assert a[..|a|] == a && b[..|b|] == b;
  }

  function BookTotal(orders: Orders, book: seq<OrderId>): int
    requires Known(orders, book)
  {
    if book == [] then 0
    else
      var n := |book| - 1;
      assert forall id :: id in book[..n] ==> id in book;
      BookTotal(orders, book[..n]) + orders[book[n]].remaining
  }

  function LevelsQty(levels: seq<Level>): int {
    if levels == [] then 0 else levels[0].quantity + LevelsQty(levels[1..])
  }

  function LevelsCount(levels: seq<Level>): int {
    if levels == [] then 0 else levels[0].orders + LevelsCount(levels[1..])
  }

  /** The same levels of a shorter book. */
  function Relevel(orders: Orders, book: seq<OrderId>, levels: seq<Level>): seq<Level>
    requires Known(orders, book)
  {
    if levels == [] then [] else [LevelAt(orders, book, levels[0].price)] + Relevel(orders, book, levels[1..])
  }

  ghost predicate DistinctPrices(levels: seq<Level>) {
    forall i, j :: 0 <= i < j < |levels| ==> levels[i].price != levels[j].price
  }

  lemma {:induction false} RelevelEmpty(orders: Orders, levels: seq<Level>)
    ensures LevelsQty(Relevel(orders, [], levels)) == 0 && LevelsCount(Relevel(orders, [], levels)) == 0
  {
    if levels != [] { RelevelEmpty(orders, levels[1..]); }
  }

  /** One more order raises the level of its price and no other. */
  lemma {:induction false} RelevelOne(orders: Orders, book: seq<OrderId>, levels: seq<Level>)
    requires Known(orders, book) && book != [] && DistinctPrices(levels)
    requires Known(orders, book[..|book| - 1])
    ensures var o := orders[book[|book| - 1]];
            var here := if exists l :: l in levels && l.price == o.price then 1 else 0;
            && LevelsCount(Relevel(orders, book, levels)) == LevelsCount(Relevel(orders, book[..|book| - 1], levels)) + here
            && LevelsQty(Relevel(orders, book, levels))
               == LevelsQty(Relevel(orders, book[..|book| - 1], levels)) + if here == 1 then o.remaining else 0
  {
    if levels != [] {
      RelevelOne(orders, book, levels[1..]);
      var o := orders[book[|book| - 1]];
      if levels[0].price == o.price {
        assert forall l :: l in levels[1..] ==> l.price != o.price;
        assert levels[0] in levels;
      } else {
        assert forall l :: l in levels && l.price == o.price ==> l in levels[1..];
        assert forall l :: l in levels[1..] ==> l in levels;
      }
    }
  }

  lemma {:induction false} RelevelTotals(orders: Orders, book: seq<OrderId>, levels: seq<Level>)
    requires Known(orders, book) && DistinctPrices(levels)
    requires forall id :: id in book ==> Listed(levels, orders[id].price)
    ensures LevelsQty(Relevel(orders, book, levels)) == BookTotal(orders, book)
    ensures LevelsCount(Relevel(orders, book, levels)) == |book|
  {
    if book == [] {
      RelevelEmpty(orders, levels);
    } else {
      var n := |book| - 1;
      assert forall id :: id in book[..n] ==> id in book;
      RelevelTotals(orders, book[..n], levels);
      assert book[n] in book;
      RelevelOne(orders, book, levels);
    }
  }

  lemma {:induction false} RelevelSame(orders: Orders, book: seq<OrderId>, levels: seq<Level>)
    requires Known(orders, book) && forall l :: l in levels ==> l == LevelAt(orders, book, l.price)
    ensures Relevel(orders, book, levels) == levels
  {
    if levels != [] {
      assert levels[0] in levels && forall l :: l in levels[1..] ==> l in levels;
      RelevelSame(orders, book, levels[1..]);
    }
  }

  lemma {:induction false} CountPositive(orders: Orders, book: seq<OrderId>, id: OrderId)
    requires Known(orders, book) && id in book
    ensures CountAt(orders, book, orders[id].price) > 0
  {
    var n := |book| - 1;
    assert forall x :: x in book[..n] ==> x in book;
    if book[n] != id {
      assert id in book[..n];
      CountPositive(orders, book[..n], id);
    }
  }

  /** An uncut snapshot accounts for every unit and every order of its side. */
  lemma DepthAddsUp(orders: Orders, side: Side, book: seq<OrderId>, levels: seq<Level>)
    requires Known(orders, book) && IsDepth(orders, side, book, 0, levels)
    ensures LevelsQty(levels) == BookTotal(orders, book) && LevelsCount(levels) == |book|
  {
    forall id | id in book ensures Listed(levels, orders[id].price) {
      CountPositive(orders, book, id);
    }
    RelevelTotals(orders, book, levels);
    RelevelSame(orders, book, levels);
  }

  lemma {:induction false} CountFinds(orders: Orders, book: seq<OrderId>, price: int) returns (k: nat)
    requires Known(orders, book) && CountAt(orders, book, price) > 0
    ensures k < |book| && orders[book[k]].price == price
  {
    var n := |book| - 1;
    assert forall x :: x in book[..n] ==> x in book;
    if orders[book[n]].price == price {
      k := n;
    } else {
      k := CountFinds(orders, book[..n], price);
    }
  }

  /** The snapshot follows the book: its first level is at the price of the order that trades next, and an order that
      trades before another is never shown behind it. */
  lemma DepthFollowsBook(orders: Orders, side: Side, book: seq<OrderId>, depth: int, levels: seq<Level>)
    requires Known(orders, book) && Sorted(orders, book) && forall id :: id in book ==> orders[id].side == side
    requires IsDepth(orders, side, book, depth, levels)
    ensures book != [] ==> levels != [] && levels[0].price == orders[book[0]].price
    ensures forall i, j, a, b :: 0 <= i < j < |book| && 0 <= a < |levels| && 0 <= b < |levels| ==>
              levels[a].price == orders[book[i]].price && levels[b].price == orders[book[j]].price ==> a <= b
  {
    forall i, j, a, b | && 0 <= i < j < |book| && 0 <= a < |levels| && 0 <= b < |levels|
                        && levels[a].price == orders[book[i]].price && levels[b].price == orders[book[j]].price
      ensures a <= b
    {
      assert orders[book[i]].Key() <= orders[book[j]].Key();
    }
    if book != [] {
      HeadLevel(orders, side, book, depth, levels);
    }
  }

  lemma HeadLevel(orders: Orders, side: Side, book: seq<OrderId>, depth: int, levels: seq<Level>)
    requires Known(orders, book) && Sorted(orders, book) && forall id :: id in book ==> orders[id].side == side
    requires IsDepth(orders, side, book, depth, levels) && book != []
    ensures levels != [] && levels[0].price == orders[book[0]].price
  {
    var p := orders[book[0]].price;
    CountPositive(orders, book, book[0]);
    assert levels[0] in levels;
    var k := CountFinds(orders, book, levels[0].price);
    assert orders[book[0]].Key() <= orders[book[k]].Key();
    assert !Better(side, levels[0].price, p);
  }

  // ---- Computing it ----

  /** The map holds one level for every price of the book. */
  ghost predicate Levelled(orders: Orders, book: seq<OrderId>, m: map<int, Level>)
    requires Known(orders, book)
  {
    && (forall p {:trigger CountAt(orders, book, p)} :: CountAt(orders, book, p) > 0 ==> p in m)
    && (forall p :: p in m ==> CountAt(orders, book, p) > 0 && m[p] == LevelAt(orders, book, p))
  }

  /** What order `n` adds to the levels of the orders before it. */
  lemma AtNext(orders: Orders, book: seq<OrderId>, n: nat)
    requires Known(orders, book) && n < |book|
    ensures Known(orders, book[..n]) && Known(orders, book[..n + 1])
    ensures forall p {:trigger CountAt(orders, book[..n + 1], p)} {:trigger QtyAt(orders, book[..n + 1], p)} ::
              var o := orders[book[n]];
              && CountAt(orders, book[..n + 1], p) == CountAt(orders, book[..n], p) + (if o.price == p then 1 else 0)
              && QtyAt(orders, book[..n + 1], p) == QtyAt(orders, book[..n], p) + (if o.price == p then o.remaining else 0)
  {
    assert forall id :: id in book[..n] ==> id in book;
    assert forall id :: id in book[..n + 1] ==> id in book;
    assert book[..n + 1][..n] == book[..n];
  }

  /** Collects one level for every price of the book, and the prices in the order they were met. */
  method Aggregate(orders: Orders, book: seq<OrderId>) returns (m: map<int, Level>, prices: seq<int>)
    requires Known(orders, book)
    ensures Levelled(orders, book, m)
    ensures Enumerates(prices, m)
  {
    m := map[];
    prices := [];
    for n := 0 to |book|
      invariant Known(orders, book[..n]) && Levelled(orders, book[..n], m)
      invariant Enumerates(prices, m)
    {
      var o := orders[book[n]];
      AtNext(orders, book, n);
      if o.price in m {
        var level := m[o.price];
        m := m[o.price := Level(level.price, level.quantity + o.remaining, level.orders + 1)];
      } else {
        NoneYet(orders, book[..n], o.price);
        EnumeratesOneMore(prices, m, o.price, Level(o.price, o.remaining, 1));
        m := m[o.price := Level(o.price, o.remaining, 1)];
        prices := prices + [o.price];
      }
    }
    assert book[..|book|] == book;
  }

  /** The keys of the map, each once. */
  ghost predicate Enumerates(prices: seq<int>, m: map<int, Level>) {
    && (forall i :: 0 <= i < |prices| ==> prices[i] in m)
    && (forall p :: p in m ==> exists i :: 0 <= i < |prices| && prices[i] == p)
    && forall i, j :: 0 <= i < j < |prices| ==> prices[i] != prices[j]
  }

  lemma EnumeratesOneMore(prices: seq<int>, m: map<int, Level>, price: int, l: Level)
    requires Enumerates(prices, m) && price !in m
    ensures Enumerates(prices + [price], m[price := l])
  {
    var more, grown := prices + [price], m[price := l];
    forall p | p in grown ensures exists i :: 0 <= i < |more| && more[i] == p {
      if p == price {
        assert more[|prices|] == p;
      } else {
        var i :| 0 <= i < |prices| && prices[i] == p;
        assert more[i] == p;
      }
    }
  }

  lemma {:induction false} NoneYet(orders: Orders, book: seq<OrderId>, price: int)
    requires Known(orders, book) && CountAt(orders, book, price) == 0
    ensures QtyAt(orders, book, price) == 0
  {
    if book != [] {
      assert forall id :: id in book[..|book| - 1] ==> id in book;
      NoneYet(orders, book[..|book| - 1], price);
    }
  }

  /** Puts a level at its place among levels of other prices. */
  method InsertLevel(side: Side, levels: seq<Level>, l: Level) returns (r: seq<Level>)
    requires BestFirst(side, levels) && forall x :: x in levels ==> x.price != l.price
    ensures BestFirst(side, r) && |r| == |levels| + 1
    ensures forall x :: x in r <==> x in levels || x == l
  {
    var k := |levels|;
    while k > 0 && Better(side, l.price, levels[k - 1].price)
      invariant 0 <= k <= |levels|
      invariant forall j :: k <= j < |levels| ==> Better(side, l.price, levels[j].price)
    {
      k := k - 1;
    }
    assert k > 0 ==> levels[k - 1] in levels;
    r := levels[..k] + [l] + levels[k..];
    InsertedInOrder(side, levels, l, k, r);
    InsertedMembers(levels, l, k);
  }

  lemma InsertedInOrder(side: Side, levels: seq<Level>, l: Level, k: nat, r: seq<Level>)
    requires BestFirst(side, levels) && k <= |levels| && r == levels[..k] + [l] + levels[k..]
    requires k > 0 ==> Better(side, levels[k - 1].price, l.price)
    requires k < |levels| ==> Better(side, l.price, levels[k].price)
    ensures BestFirst(side, r)
  {
    assert forall i :: 0 <= i < k ==> Better(side, levels[i].price, l.price);
    assert forall j :: k <= j < |levels| ==> Better(side, l.price, levels[j].price);
    forall i, j | 0 <= i < j < |r| ensures Better(side, r[i].price, r[j].price) {
      var i', j' := if i < k then i else i - 1, if j < k then j else j - 1;
      assert i != k && j != k ==> r[i] == levels[i'] && r[j] == levels[j'];
    }
  }

  lemma InsertedMembers(levels: seq<Level>, l: Level, k: nat)
    requires k <= |levels|
    ensures forall x :: x in levels[..k] + [l] + levels[k..] <==> x in levels || x == l
  {
    assert levels == levels[..k] + levels[k..];
  }

  /** The levels of the map, best first. The order in which they come does not matter. */
  method SortLevels(side: Side, m: map<int, Level>, prices: seq<int>) returns (levels: seq<Level>)
    requires Enumerates(prices, m) && forall p :: p in m ==> m[p].price == p
    ensures BestFirst(side, levels)
    ensures forall l :: l in levels ==> l.price in m && m[l.price] == l
    ensures forall p :: p in m ==> m[p] in levels
  {
    levels := [];
    for n := 0 to |prices|
      invariant BestFirst(side, levels)
      invariant forall l :: l in levels ==> exists i :: 0 <= i < n && prices[i] == l.price
      invariant forall l :: l in levels ==> l.price in m && m[l.price] == l
      invariant forall i :: 0 <= i < n ==> m[prices[i]] in levels
    {
      var level := m[prices[n]];
      forall l | l in levels ensures l.price != level.price {
        var i :| 0 <= i < n && prices[i] == l.price;
      }
      levels := InsertLevel(side, levels, level);
      assert prices[n] == level.price;
    }
  }

  lemma CutIsDepth(orders: Orders, side: Side, book: seq<OrderId>, depth: int, levels: seq<Level>)
    requires Known(orders, book) && IsDepth(orders, side, book, 0, levels) && 0 < depth < |levels|
    ensures IsDepth(orders, side, book, depth, levels[..depth])
  {
    var cut := levels[..depth];
    forall p {:trigger CountAt(orders, book, p)} | CountAt(orders, book, p) > 0 && !Listed(cut, p)
      ensures forall l :: l in cut ==> Better(side, l.price, p)
    {
      assert Listed(levels, p);
      CutBetter(side, levels, depth, p);
    }
    assert forall l :: l in cut ==> l in levels;
  }

  lemma CutBetter(side: Side, levels: seq<Level>, depth: nat, p: int)
    requires BestFirst(side, levels) && depth < |levels|
    requires Listed(levels, p) && !Listed(levels[..depth], p)
    ensures forall l :: l in levels[..depth] ==> Better(side, l.price, p)
  {
    var cut := levels[..depth];
    var k :| 0 <= k < |levels| && levels[k].price == p;
    assert forall i :: 0 <= i < depth ==> cut[i] in cut && cut[i] == levels[i];
    forall l | l in cut ensures Better(side, l.price, p) {
      var i :| 0 <= i < depth && cut[i] == l;
      assert Better(side, levels[i].price, levels[k].price);
    }
  }

  /** One side of the snapshot. */
  method SideDepth(orders: Orders, side: Side, book: seq<OrderId>, depth: int) returns (levels: seq<Level>)
    requires Known(orders, book)
    ensures IsDepth(orders, side, book, depth, levels)
  {
    var m, prices := Aggregate(orders, book);
    levels := SortLevels(side, m, prices);
    assert IsDepth(orders, side, book, 0, levels) by {
      forall p {:trigger CountAt(orders, book, p)} | CountAt(orders, book, p) > 0 ensures Listed(levels, p) {
        assert m[p] in levels;
      }
    }
    if depth > 0 && |levels| > depth {
      CutIsDepth(orders, side, book, depth, levels);
      levels := levels[..depth];
    }
  }
}
