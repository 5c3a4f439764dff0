/** Integer amounts: division as the source's 64-bit operator does it, and the rounding laws. */
module Amounts {

  const MICRO := 1_000_000
  const FEE_SCALE := 10_000_000_000

  /** Integer division truncating toward zero. */
  function Quo(a: int, m: int): int
    requires m > 0
  {
    if a >= 0 then a / m else -((-a) / m)
  }

  /** `q` is the `m`-th part of `n` without its fraction. */
  predicate Truncates(n: int, m: int, q: int) {
    && (n >= 0 ==> q * m <= n < (q + 1) * m)
    && (n <= 0 ==> (q - 1) * m < n <= q * m)
  }

  function Min(a: int, b: int): int { if a <= b then a else b }

  /** The quote amount of `qty` base units at `price` quote units per million base units. */
  function QuoteValue(price: int, qty: int): int { Quo(price * qty, MICRO) }

  /** The fee on such a trade at `bps` basis points. */
  function FeeOn(price: int, qty: int, bps: int): int { Quo(qty * price * bps, FEE_SCALE) }

  lemma DivMono(a: int, b: int, m: int)
    requires m > 0 && a <= b
    ensures a / m <= b / m
  {
    var x, y := a / m, b / m;
    assert a == m * x + a % m && b == m * y + b % m;
    assert x >= y + 1 ==> m * x >= m * (y + 1);
  }

  lemma QuoMono(a: int, b: int, m: int)
    requires m > 0 && a <= b
    ensures Quo(a, m) <= Quo(b, m)
  {
    if a >= 0 {
      DivMono(a, b, m);
    } else if b < 0 {
      DivMono(-b, -a, m);
    } else {
      DivMono(0, b, m);
      DivMono(0, -a, m);
    }
  }

  /** A quotient is determined by its remainder. */
  lemma DivUnique(x: int, m: int, q: int, r: int)
    requires m > 0 && x == m * q + r && 0 <= r < m
    ensures x / m == q
  {
    var z := x / m;
    assert x == m * z + x % m;
    assert m * (q - z) == x % m - r;
    assert q - z >= 1 ==> m * (q - z) >= m;
    assert q - z <= -1 ==> m * (q - z) <= -m;
  }

  /** Division is truncation, and nothing else is. */
  lemma QuoTruncates(n: int, m: int, q: int)
    requires m > 0
    ensures Truncates(n, m, q) <==> q == Quo(n, m)
  {
    var x := if n >= 0 then n else -n;
    var k := x / m;
    assert x == m * k + x % m;
    if q == Quo(n, m) {
      assert Truncates(n, m, q);
    } else if Truncates(n, m, q) {
      DivUnique(x, m, if n >= 0 then q else -q, if n >= 0 then n - q * m else q * m - n);
    }
  }

  /** Rounding two parts down loses at most one unit against rounding the whole. */
  lemma QuoSplit(a: int, b: int, m: int)
    requires m > 0 && a >= 0 && b >= 0
    ensures Quo(a, m) + Quo(b, m) <= Quo(a + b, m) <= Quo(a, m) + Quo(b, m) + 1
  {
    var x, y, r := a / m, b / m, a % m + b % m;
    assert a == m * x + a % m && b == m * y + b % m;
    assert m * (x + y) == m * x + m * y;
    if r < m {
      DivUnique(a + b, m, x + y, r);
    } else {
      assert m * (x + y + 1) == m * (x + y) + m;
      DivUnique(a + b, m, x + y + 1, r - m);
    }
  }

  lemma MulMono(a: int, b: int, k: int)
    requires a <= b && k >= 0
    ensures a * k <= b * k
  {
  }

  lemma MulNonNegative(a: int, b: int)
    requires a >= 0 && b >= 0
    ensures a * b >= 0
  {
  }

  /** A fill of `f` units at a price no worse than `limit` takes no more out of a buy order's lock
      than the lock held for those units. */
  lemma FillFitsLock(limit: int, price: int, r: int, f: int)
    requires 0 <= limit && price <= limit && 0 <= f <= r
    ensures QuoteValue(price, f) + QuoteValue(limit, r - f) <= QuoteValue(limit, r)
  {
    MulMono(price, limit, f);
    QuoMono(price * f, limit * f, MICRO);
    MulNonNegative(limit, f);
    MulNonNegative(limit, r - f);
    QuoSplit(limit * f, limit * (r - f), MICRO);
    assert limit * f + limit * (r - f) == limit * r;
  }

  /** The same for the fees of such a fill. */
  lemma FillFitsFee(limit: int, price: int, r: int, f: int, bps: int)
    requires 0 <= limit && price <= limit && 0 <= f <= r && 0 <= bps
    ensures FeeOn(price, f, bps) + FeeOn(limit, r - f, bps) <= FeeOn(limit, r, bps)
  {
    MulMono(price, limit, f);
    MulMono(f * price, f * limit, bps);
    QuoMono(f * price * bps, f * limit * bps, FEE_SCALE);
    MulNonNegative(f, limit);
    MulNonNegative(f * limit, bps);
    MulNonNegative(r - f, limit);
    MulNonNegative((r - f) * limit, bps);
    QuoSplit(f * limit * bps, (r - f) * limit * bps, FEE_SCALE);
    assert f * limit + (r - f) * limit == r * limit;
    assert f * limit * bps + (r - f) * limit * bps == (f * limit + (r - f) * limit) * bps;
  }

  /** Rounding a seller's proceeds fill by fill loses at most one unit a fill. */
  lemma ProceedsSplit(limit: int, price: int, f: int, rest: int)
    requires 0 <= limit <= price && 0 <= f && 0 <= rest
    ensures QuoteValue(limit, f + rest) <= QuoteValue(price, f) + QuoteValue(limit, rest) + 1
  {
    MulMono(limit, price, f);
    QuoMono(limit * f, price * f, MICRO);
    MulNonNegative(limit, f);
    MulNonNegative(limit, rest);
    QuoSplit(limit * f, limit * rest, MICRO);
    assert limit * f + limit * rest == limit * (f + rest);
  }

  /** With at most 10,000 basis points a fee is never negative and never exceeds the trade's value. */
  lemma FeeWithinValue(price: int, qty: int, bps: int)
    requires 0 <= price && 0 <= qty && 0 <= bps <= 10_000
    ensures 0 <= FeeOn(price, qty, bps) <= QuoteValue(price, qty)
  {
    var x := price * qty;
    MulNonNegative(price, qty);
    assert qty * price == x;
    MulNonNegative(x, bps);
    MulMono(bps, 10_000, x);
    assert bps * x == x * bps;
    DivMono(x * bps, x * 10_000, FEE_SCALE);
    assert x * 10_000 / FEE_SCALE == x / MICRO;
  }

  lemma QuoteValueNonNegative(price: int, qty: int)
    requires 0 <= price && 0 <= qty
    ensures QuoteValue(price, qty) >= 0
  {
    MulNonNegative(price, qty);
  }
}
