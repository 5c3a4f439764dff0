/** One side of the book: a duplicate-free, price-sorted sequence of order ids. */
module OrderBook {
  import opened ExchangeTypes

  predicate Known(orders: Orders, book: seq<OrderId>) {
    forall id :: id in book ==> id in orders
  }

  ghost predicate NoDup(book: seq<OrderId>) {
    forall i, j :: 0 <= i < j < |book| ==> book[i] != book[j]
  }

  ghost predicate Sorted(orders: Orders, book: seq<OrderId>)
    requires Known(orders, book)
  {
    forall i, j :: 0 <= i < j < |book| ==> orders[book[i]].Key() <= orders[book[j]].Key()
  }

  /** `book` is some price-sorted arrangement of `source`; nothing is said about equal prices. */
  ghost predicate IsSortOf(orders: Orders, book: seq<OrderId>, source: seq<OrderId>) {
    && multiset(book) == multiset(source)
    && Known(orders, book)
    && Sorted(orders, book)
  }

  /** The ids of `book` that are not in `gone`, in order. */
  function Drop(book: seq<OrderId>, gone: set<OrderId>): seq<OrderId> {
    if book == [] then []
    else if book[0] in gone then Drop(book[1..], gone)
    else [book[0]] + Drop(book[1..], gone)
  }

  /** The orders with nothing left to fill. */
  ghost function Exhausted(orders: Orders): set<OrderId> {
    set id | id in orders && orders[id].remaining == 0
  }

  lemma {:induction false} DropMembers(book: seq<OrderId>, gone: set<OrderId>)
    ensures forall id :: id in Drop(book, gone) <==> id in book && id !in gone
  {
    if book != [] {
      DropMembers(book[1..], gone);
      assert forall id :: id in book <==> id == book[0] || id in book[1..];
    }
  }

  lemma {:induction false} DropNoDup(book: seq<OrderId>, gone: set<OrderId>)
    requires NoDup(book)
    ensures NoDup(Drop(book, gone))
  {
    if book != [] {
      DropNoDup(book[1..], gone);
      DropMembers(book[1..], gone);
      assert forall j :: 0 < j < |book| ==> book[j] != book[0];
      assert book[0] !in book[1..];
      var rest := Drop(book[1..], gone);
      assert forall j :: 0 <= j < |rest| ==> rest[j] in rest;
    }
  }

  /** A first order that sorts before the rest keeps a sorted book sorted. */
  lemma ConsSorted(orders: Orders, id: OrderId, rest: seq<OrderId>)
    requires id in orders && Known(orders, rest) && Sorted(orders, rest)
    requires forall x :: x in rest ==> orders[id].Key() <= orders[x].Key()
    ensures Known(orders, [id] + rest) && Sorted(orders, [id] + rest)
  {
    var book := [id] + rest;
    forall i, j | 0 <= i < j < |book| ensures orders[book[i]].Key() <= orders[book[j]].Key() {
      assert book[j] == rest[j - 1] && rest[j - 1] in rest;
      assert i > 0 ==> book[i] == rest[i - 1];
    }
  }

  lemma HeadFirst(orders: Orders, book: seq<OrderId>)
    requires Known(orders, book) && Sorted(orders, book) && book != []
    ensures forall x :: x in book[1..] ==> x in book && orders[book[0]].Key() <= orders[x].Key()
    ensures Known(orders, book[1..]) && Sorted(orders, book[1..])
  {
    forall x | x in book[1..] ensures x in book && orders[book[0]].Key() <= orders[x].Key() {
      var i :| 0 <= i < |book[1..]| && book[1..][i] == x;
      assert book[i + 1] == x;
    }
  }

  lemma {:induction false} DropSorted(orders: Orders, book: seq<OrderId>, gone: set<OrderId>)
    requires Known(orders, book) && Sorted(orders, book)
    ensures Known(orders, Drop(book, gone)) && Sorted(orders, Drop(book, gone))
  {
    if book != [] {
      HeadFirst(orders, book);
      DropSorted(orders, book[1..], gone);
      DropMembers(book[1..], gone);
      if book[0] !in gone {
        ConsSorted(orders, book[0], Drop(book[1..], gone));
      }
    }
  }

  /** Dropping nothing that is there changes nothing. */
  lemma {:induction false} DropNone(book: seq<OrderId>, gone: set<OrderId>)
    requires forall id :: id in book ==> id !in gone
    ensures Drop(book, gone) == book
  {
    if book != [] {
      assert book[0] in book && forall id :: id in book[1..] ==> id in book;
      DropNone(book[1..], gone);
    }
  }

  lemma NoDupCount(book: seq<OrderId>)
    requires NoDup(book)
    ensures forall id :: multiset(book)[id] <= 1
  {
    forall id ensures multiset(book)[id] <= 1 { NoDupCountOf(book, id); }
  }

  lemma {:induction false} NoDupCountOf(book: seq<OrderId>, id: OrderId)
    requires NoDup(book)
    ensures multiset(book)[id] <= 1
  {
    if book != [] {
      assert book == [book[0]] + book[1..];
      NoDupCountOf(book[1..], id);
      assert book[0] !in book[1..];
      assert book[0] !in multiset(book[1..]);
    }
  }

  lemma CountNoDup(book: seq<OrderId>)
    requires forall id :: multiset(book)[id] <= 1
    ensures NoDup(book)
  {
    forall i, j | 0 <= i < j < |book| ensures book[i] != book[j] {
      assert book == book[..j] + book[j..];
      assert book[i] in book[..j] && book[j] in book[j..];
      assert multiset(book) == multiset(book[..j]) + multiset(book[j..]);
      assert multiset(book)[book[i]] == multiset(book[..j])[book[i]] + multiset(book[j..])[book[i]];
    }
  }

  /** Sorting keeps the members and introduces no duplicate. */
  lemma SortKeeps(orders: Orders, book: seq<OrderId>, source: seq<OrderId>)
    requires IsSortOf(orders, book, source) && NoDup(source)
    ensures NoDup(book)
    ensures forall id :: id in book <==> id in source
  {
    NoDupCount(source);
    CountNoDup(book);
    forall id ensures id in book <==> id in source {
      assert id in book <==> id in multiset(book);
      assert id in source <==> id in multiset(source);
    }
  }

  lemma InsertSorted(orders: Orders, book: seq<OrderId>, id: OrderId, k: nat, r: seq<OrderId>)
    requires Known(orders, book) && id in orders && Sorted(orders, book)
    requires k <= |book| && r == book[..k] + [id] + book[k..] && Known(orders, r)
    requires k > 0 ==> orders[book[k - 1]].Key() <= orders[id].Key()
    requires k < |book| ==> orders[id].Key() <= orders[book[k]].Key()
    ensures Sorted(orders, r)
  {
    forall i, j | 0 <= i < j < |r|
      ensures orders[r[i]].Key() <= orders[r[j]].Key()
    {
      if i < k {
        assert r[i] == book[i];
        assert orders[book[i]].Key() <= orders[book[k - 1]].Key();
        if j > k { assert r[j] == book[j - 1]; }
      } else {
        assert r[j] == book[j - 1];
        if i > k { assert r[i] == book[i - 1]; }
      }
    }
  }

  lemma InsertMembers(book: seq<OrderId>, id: OrderId, k: nat)
    requires k <= |book|
    ensures multiset(book[..k] + [id] + book[k..]) == multiset(book + [id])
    ensures forall x :: x in book[..k] + [id] + book[k..] ==> x in book || x == id
  {
    assert book == book[..k] + book[k..];
  }

  method Insert(orders: Orders, book: seq<OrderId>, id: OrderId) returns (r: seq<OrderId>)
    requires Known(orders, book) && id in orders && Sorted(orders, book)
    ensures IsSortOf(orders, r, book + [id])
  {
    var k := |book|;
    while k > 0 && orders[book[k - 1]].Key() > orders[id].Key()
      invariant 0 <= k <= |book|
      invariant forall j :: k <= j < |book| ==> orders[id].Key() < orders[book[j]].Key()
    {
      k := k - 1;
    }
    r := book[..k] + [id] + book[k..];
    InsertMembers(book, id, k);
    InsertSorted(orders, book, id, k, r);
  }

  /** Stands for the library sort: any arrangement of equal prices meets its contract. */
  method SortByPrice(orders: Orders, source: seq<OrderId>) returns (book: seq<OrderId>)
    requires Known(orders, source)
    ensures IsSortOf(orders, book, source)
  {
    book := [];
    for n := 0 to |source|
      invariant IsSortOf(orders, book, source[..n])
    {
      book := Insert(orders, book, source[n]);
      assert source[..n + 1] == source[..n] + [source[n]];
    }
    assert source[..|source|] == source;
  }

  // ---- The same members and both sorted: the same prices in the same places ----

  function Members(book: seq<OrderId>): set<OrderId> { set id | id in book }

  lemma {:induction false} MembersSize(book: seq<OrderId>)
    ensures |Members(book)| <= |book|
    ensures NoDup(book) ==> |Members(book)| == |book|
  {
    if book != [] {
      var last := |book| - 1;
      MembersSize(book[..last]);
      assert book == book[..last] + [book[last]];
      assert Members(book) == Members(book[..last]) + {book[last]};
      assert NoDup(book) ==> book[last] !in book[..last];
    }
  }

  /** Were the i-th price of `a` above that of `b`, the first i + 1 orders of `b` would all lie among
      the first i of `a`. */
  lemma PriceNotAbove(orders: Orders, a: seq<OrderId>, b: seq<OrderId>, i: nat)
    requires Known(orders, a) && Known(orders, b) && NoDup(b)
    requires Sorted(orders, a) && Sorted(orders, b)
    requires forall id :: id in b ==> id in a
    requires i < |a| && i < |b|
    ensures orders[a[i]].Key() <= orders[b[i]].Key()
  {
    if orders[a[i]].Key() > orders[b[i]].Key() {
      forall id | id in Members(b[..i + 1]) ensures id in Members(a[..i]) {
        var m :| 0 <= m <= i && b[m] == id;
        assert id in b && id in a;
        assert orders[id].Key() <= orders[b[i]].Key();
        var n :| 0 <= n < |a| && a[n] == id;
        assert n < i;
        assert a[..i][n] == id;
      }
      assert Members(b[..i + 1]) <= Members(a[..i]);
      SubsetSize(Members(b[..i + 1]), Members(a[..i]));
      MembersSize(b[..i + 1]);
      MembersSize(a[..i]);
      assert false;
    }
  }

  lemma {:induction false} SubsetSize(x: set<OrderId>, y: set<OrderId>)
    requires x <= y
    ensures |x| <= |y|
  {
    assert y == x + (y - x);
    assert x !! (y - x);
  }

  /** Two sorted arrangements of the same orders differ at most inside a price level. */
  lemma SortsAgreeOnPrices(orders: Orders, a: seq<OrderId>, b: seq<OrderId>)
    requires Known(orders, a) && Known(orders, b)
    requires NoDup(a) && NoDup(b) && Sorted(orders, a) && Sorted(orders, b)
    requires forall id :: id in a <==> id in b
    ensures |a| == |b|
    ensures forall i :: 0 <= i < |a| ==> orders[a[i]].Key() == orders[b[i]].Key()
  {
    assert Members(a) == Members(b);
    MembersSize(a);
    MembersSize(b);
    forall i | 0 <= i < |a| ensures orders[a[i]].Key() == orders[b[i]].Key() {
      PriceNotAbove(orders, a, b, i);
      PriceNotAbove(orders, b, a, i);
    }
  }

  /** Duplicate-free books with the same members hold the same orders. */
  lemma SameMembers(a: seq<OrderId>, b: seq<OrderId>)
    requires NoDup(a) && NoDup(b)
    requires forall id :: id in a <==> id in b
    ensures multiset(a) == multiset(b)
  {
    NoDupCount(a);
    NoDupCount(b);
    forall id ensures multiset(a)[id] == multiset(b)[id] {
      assert id in multiset(a) <==> id in a;
      assert id in multiset(b) <==> id in b;
    }
  }
}
