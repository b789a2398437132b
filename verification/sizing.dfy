/**
 * Order sizing of the copy-trade server (server/copy-trade-server.ts):
 * round-down to the market's tick, round-down to cents, the $1 minimum
 * notional and the market's minimum order size. Numbers are exact reals.
 */
module Sizing {
  import opened Common

  /** The four tick sizes the exchange publishes ("0.1" … "0.0001"). */
  datatype TickSize = Tick1 | Tick01 | Tick001 | Tick0001 {
    function Value(): (r: real)
      ensures 0.0 < r < 1.0
    {
      match this
      case Tick1 => 0.1
      case Tick01 => 0.01
      case Tick001 => 0.001
      case Tick0001 => 0.0001
    }
  }

  /** `market.minimum_tick_size ?? "0.01"`. */
  const DefaultTick := Tick01

  const MinUsdcOrder: real := 1.0
  const PriceCap: real := 0.99

  function Min(a: real, b: real): real { if a <= b then a else b }
  function Max(a: real, b: real): real { if a >= b then a else b }

  /** The USDC value of an order: shares times price. */
  function Notional(size: real, price: real): real { size * price }

  /** `x` is a whole number of steps `t`. */
  predicate MultipleOf(x: real, t: real)
    requires t > 0.0
  {
    (x / t).Floor as real == x / t
  }

  /** `Math.ceil`. */
  function Ceil(x: real): (r: int)
    ensures x <= r as real < x + 1.0
  {
    -((-x).Floor)
  }

  /** `Math.floor(x / t) * t` for a step `t > 0`. */
  function FloorTo(x: real, t: real): (r: real)
    requires t > 0.0
    ensures r <= x < r + t
    ensures MultipleOf(r, t)
  {
    var q := x / t;
    var k := q.Floor as real;
    DivMul(x, t);
    assert k <= q < k + 1.0;
    MulMono(k, q, t);
    MulMono(q, k + 1.0, t);
    MulDiv(k, t);
    assert k * t <= x;
    calc {
      x;
    ==
      q * t;
    <
      (k + 1.0) * t;
    ==
      k * t + t;
    }
    k * t
  }

  lemma DivMul(x: real, t: real)
    requires t > 0.0
    ensures (x / t) * t == x
  {
  }

  lemma MulDiv(k: real, t: real)
    requires t > 0.0
    ensures (k * t) / t == k
  {
  }

  lemma MulMono(a: real, b: real, t: real)
    requires t > 0.0 && a <= b
    ensures a * t <= b * t
    ensures a < b ==> a * t < b * t
  {
  }

  /** Rounding down to a step is idempotent: a multiple of the step is left alone. */
  lemma FloorToIdempotent(x: real, t: real)
    requires t > 0.0
    ensures FloorTo(FloorTo(x, t), t) == FloorTo(x, t)
  {
    var r := FloorTo(x, t);
    var k := (r / t).Floor;
    assert k as real == r / t;
    assert k as real * t == r;
  }

  /** roundToTick: rounds a price down to the tick; `toFixed(4)` changes nothing on exact reals. */
  function RoundToTick(price: real, tick: TickSize): (r: real)
    ensures r <= price < r + tick.Value()
    ensures MultipleOf(r, tick.Value())
  {
    FloorTo(price, tick.Value())
  }

  lemma RoundToTickIdempotent(price: real, tick: TickSize)
    ensures RoundToTick(RoundToTick(price, tick), tick) == RoundToTick(price, tick)
  {
    FloorToIdempotent(price, tick.Value());
  }

  /** roundSize: rounds a size down to two decimals. */
  function RoundSize(size: real): (r: real)
    ensures r <= size < r + 0.01
    ensures MultipleOf(r, 0.01)
  {
    FloorTo(size, 0.01)
  }

  /** Rounding down to cents is monotone. */
  lemma RoundSizeMono(x: real, y: real)
    requires x <= y
    ensures RoundSize(x) <= RoundSize(y)
  {
    var kx := (x / 0.01).Floor;
    var ky := (y / 0.01).Floor;
    assert kx as real <= x / 0.01 <= y / 0.01 < ky as real + 1.0;
    assert kx <= ky;
    assert RoundSize(x) == kx as real * 0.01;
    assert RoundSize(y) == ky as real * 0.01;
  }

  lemma RoundSizeIdempotent(size: real)
    ensures RoundSize(RoundSize(size)) == RoundSize(size)
  {
    FloorToIdempotent(size, 0.01);
  }

  /** The order price: the trade's price raised by the improvement, capped at 0.99, rounded down to the tick. */
  function OrderPrice(tradePrice: real, improvementPct: real, tick: TickSize): real {
    var improved := tradePrice * (1.0 + improvementPct);
    RoundToTick(if improved > PriceCap then PriceCap else improved, tick)
  }

  /** The order price never exceeds 0.99 nor the improved price, and is less than one tick below the smaller of the two. */
  lemma OrderPriceBounds(tradePrice: real, improvementPct: real, tick: TickSize)
    ensures var p := OrderPrice(tradePrice, improvementPct, tick);
      && p <= PriceCap
      && p <= tradePrice * (1.0 + improvementPct)
      && Min(PriceCap, tradePrice * (1.0 + improvementPct)) < p + tick.Value()
      && MultipleOf(p, tick.Value())
  {
  }

  /** The size before the minimums: the trade's size times the multiplier, capped at maxSingleTrade / price. */
  function CappedSize(tradeSize: real, tradePrice: real, multiplier: real, maxSingleTrade: real): real
    requires tradePrice > 0.0
  {
    var scaled := tradeSize * multiplier;
    var maxShares := maxSingleTrade / tradePrice;
    if scaled > maxShares then maxShares else scaled
  }

  /** The capped size is the smaller of the scaled size and the USD cap in shares. */
  lemma CappedSizeIsMin(tradeSize: real, tradePrice: real, multiplier: real, maxSingleTrade: real)
    requires tradePrice > 0.0
    ensures CappedSize(tradeSize, tradePrice, multiplier, maxSingleTrade) == Min(tradeSize * multiplier, maxSingleTrade / tradePrice)
    ensures CappedSize(tradeSize, tradePrice, multiplier, maxSingleTrade) * tradePrice <= maxSingleTrade
  {
    var c := CappedSize(tradeSize, tradePrice, multiplier, maxSingleTrade);
    MulMono(c, maxSingleTrade / tradePrice, tradePrice);
    DivMul(maxSingleTrade, tradePrice);
  }

  /** `Math.ceil(x * 100) / 100`: the smallest cent amount at or above `x`. */
  function CeilCents(x: real): (r: real)
    ensures x <= r < x + 0.01
    ensures MultipleOf(r, 0.01)
  {
    var c := Ceil(x * 100.0);
    var r := c as real / 100.0;
    assert x * 100.0 <= c as real < x * 100.0 + 1.0;
    assert r * 100.0 == c as real;
    assert r / 0.01 == c as real;
    assert (c as real).Floor == c;
    r
  }

  /** No cent amount at or above `x` lies below CeilCents(x). */
  lemma CeilCentsLeast(x: real, y: real)
    requires MultipleOf(y, 0.01) && x <= y
    ensures CeilCents(x) <= y
  {
    var n := (y / 0.01).Floor;
    assert n as real == y * 100.0;
    assert Ceil(x * 100.0) <= n;
  }

  /** The $1 minimum: a size worth less than $1 at the price becomes the cent amount just reaching $1. */
  function UsdMinimum(size: real, price: real): real
    requires price > 0.0
  {
    if Notional(size, price) < MinUsdcOrder then CeilCents(MinUsdcOrder / price) else size
  }

  /** The market's minimum size: a smaller size becomes the minimum rounded up to cents. */
  function MarketMinimum(size: real, minOrderSize: real): real {
    if size < minOrderSize then CeilCents(minOrderSize) else size
  }

  /** The $1 minimum notional, then the market's minimum size, applied in order to a size at a positive price. */
  function ApplyMinimums(size: real, price: real, minOrderSize: real): real
    requires price > 0.0
  {
    MarketMinimum(UsdMinimum(size, price), minOrderSize)
  }

  lemma UsdMinimumSpec(size: real, price: real)
    requires price > 0.0
    ensures Notional(UsdMinimum(size, price), price) >= MinUsdcOrder
    ensures UsdMinimum(size, price) >= size
    ensures Notional(size, price) >= MinUsdcOrder ==> UsdMinimum(size, price) == size
  {
    if Notional(size, price) < MinUsdcOrder {
      var c := CeilCents(MinUsdcOrder / price);
      MulMono(MinUsdcOrder / price, c, price);
      DivMul(MinUsdcOrder, price);
      assert Notional(c, price) >= MinUsdcOrder;
      if c < size {
        MulMono(c, size, price);
      }
    }
  }

  lemma MarketMinimumSpec(size: real, price: real, minOrderSize: real)
    requires price > 0.0 && Notional(size, price) >= MinUsdcOrder
    ensures var r := MarketMinimum(size, minOrderSize);
      Notional(r, price) >= MinUsdcOrder && r >= minOrderSize && r >= size && r > 0.0
  {
    var r := MarketMinimum(size, minOrderSize);
    MulMono(size, r, price);
    if size <= 0.0 {
      MulMono(size, 0.0, price);
    }
  }

  /** After the minimums the order is worth at least $1 and at least the market minimum, its size only
      grew, and a size that already met both minimums is kept as it is. */
  lemma ApplyMinimumsSpec(size: real, price: real, minOrderSize: real)
    requires price > 0.0
    ensures var r := ApplyMinimums(size, price, minOrderSize);
      && Notional(r, price) >= MinUsdcOrder
      && r >= minOrderSize
      && r > 0.0
      && r >= size
      && (Notional(size, price) >= MinUsdcOrder && size >= minOrderSize ==> r == size)
  {
    UsdMinimumSpec(size, price);
    MarketMinimumSpec(UsdMinimum(size, price), price, minOrderSize);
  }

  /** A size worth at least $1 at a positive price is at least $1 / price in shares. */
  lemma NotionalShares(y: real, price: real)
    requires price > 0.0 && Notional(y, price) >= MinUsdcOrder
    ensures y >= MinUsdcOrder / price
  {
    DivMul(MinUsdcOrder, price);
    if y < MinUsdcOrder / price {
      MulMono(y, MinUsdcOrder / price, price);
    }
  }

  /**
   * The minimums raise a size to the least cent amount that meets them: no
   * cent amount at or above the size that is worth $1 and reaches the market
   * minimum lies below the result.
   */
  lemma ApplyMinimumsLeast(size: real, price: real, minOrderSize: real, y: real)
    requires price > 0.0 && MultipleOf(y, 0.01)
    requires y >= size && Notional(y, price) >= MinUsdcOrder && y >= minOrderSize
    ensures ApplyMinimums(size, price, minOrderSize) <= y
  {
    var u := UsdMinimum(size, price);
    if Notional(size, price) < MinUsdcOrder {
      NotionalShares(y, price);
      CeilCentsLeast(MinUsdcOrder / price, y);
    }
    if u < minOrderSize {
      CeilCentsLeast(minOrderSize, y);
    }
  }

  /** From a cent amount the minimums give a cent amount less than a cent above the largest of the size, $1 / price and the market minimum. */
  lemma ApplyMinimumsOnCents(size: real, price: real, minOrderSize: real)
    requires price > 0.0 && MultipleOf(size, 0.01)
    ensures var r := ApplyMinimums(size, price, minOrderSize);
      MultipleOf(r, 0.01) && r < Max(size, Max(MinUsdcOrder / price, minOrderSize)) + 0.01
  {
  }

  /** The sized order, or None when the price rounds to zero (the zero_order skip). */
  datatype Sized = Sized(price: real, size: real)

  function SizeOrder(tradeSize: real, tradePrice: real, multiplier: real, maxSingleTrade: real,
                     improvementPct: real, tick: TickSize, minOrderSize: real): (r: Option<Sized>)
    requires tradePrice > 0.0
    ensures r.None? <==> OrderPrice(tradePrice, improvementPct, tick) <= 0.0
    ensures r.Some? ==> r.value.price == OrderPrice(tradePrice, improvementPct, tick)
    ensures r.Some? ==> 0.0 < r.value.price <= PriceCap && MultipleOf(r.value.price, tick.Value())
    ensures r.Some? ==> Notional(r.value.size, r.value.price) >= MinUsdcOrder && r.value.size >= minOrderSize
    ensures r.Some? ==> r.value.size >= RoundSize(CappedSize(tradeSize, tradePrice, multiplier, maxSingleTrade))
    ensures r.Some? ==>
      var base := RoundSize(CappedSize(tradeSize, tradePrice, multiplier, maxSingleTrade));
      Notional(base, r.value.price) >= MinUsdcOrder && base >= minOrderSize ==> r.value.size == base
    ensures r.Some? ==>
      var base := RoundSize(CappedSize(tradeSize, tradePrice, multiplier, maxSingleTrade));
      MultipleOf(r.value.size, 0.01) && r.value.size < Max(base, Max(MinUsdcOrder / r.value.price, minOrderSize)) + 0.01
  {
    var price := OrderPrice(tradePrice, improvementPct, tick);
    if price <= 0.0 then None
    else
      var base := RoundSize(CappedSize(tradeSize, tradePrice, multiplier, maxSingleTrade));
      var size := ApplyMinimums(base, price, minOrderSize);
      ApplyMinimumsSpec(base, price, minOrderSize);
      ApplyMinimumsOnCents(base, price, minOrderSize);
      Some(Sized(price, size))
  }

  /**
   * Sizing is monotone in the multiplier: a larger multiplier never gives a
   * smaller order (the maxSingleTrade cap and the minimums included), and
   * the order price does not depend on it.
   */
  lemma SizeOrderMonotone(tradeSize: real, tradePrice: real, m1: real, m2: real, maxSingleTrade: real,
                          improvementPct: real, tick: TickSize, minOrderSize: real)
    requires tradePrice > 0.0 && tradeSize >= 0.0 && m1 <= m2
    ensures var r1 := SizeOrder(tradeSize, tradePrice, m1, maxSingleTrade, improvementPct, tick, minOrderSize);
      var r2 := SizeOrder(tradeSize, tradePrice, m2, maxSingleTrade, improvementPct, tick, minOrderSize);
      && (r1.Some? <==> r2.Some?)
      && (r1.Some? ==> r1.value.price == r2.value.price && r1.value.size <= r2.value.size)
  {
    var r1 := SizeOrder(tradeSize, tradePrice, m1, maxSingleTrade, improvementPct, tick, minOrderSize);
    var r2 := SizeOrder(tradeSize, tradePrice, m2, maxSingleTrade, improvementPct, tick, minOrderSize);
    if r1.Some? {
      var c1 := CappedSize(tradeSize, tradePrice, m1, maxSingleTrade);
      var c2 := CappedSize(tradeSize, tradePrice, m2, maxSingleTrade);
      CappedSizeMono(tradeSize, tradePrice, m1, m2, maxSingleTrade);
      RoundSizeMono(c1, c2);
      ApplyMinimumsLeast(RoundSize(c1), r1.value.price, minOrderSize, r2.value.size);
    }
  }

  /** The capped size grows with the multiplier. */
  lemma CappedSizeMono(tradeSize: real, tradePrice: real, m1: real, m2: real, maxSingleTrade: real)
    requires tradePrice > 0.0 && tradeSize >= 0.0 && m1 <= m2
    ensures CappedSize(tradeSize, tradePrice, m1, maxSingleTrade) <= CappedSize(tradeSize, tradePrice, m2, maxSingleTrade)
  {
    if tradeSize > 0.0 {
      MulMono(m1, m2, tradeSize);
    }
    assert tradeSize * m1 <= tradeSize * m2;
  }

  /** The documented example: 100 shares at 0.5, multiplier 0.5, a $1 cap, 2% improvement, tick 0.01 and a
      market minimum of 5 give 5 shares at 0.51 (the cap cuts 50 shares to 2, the market minimum raises them to 5). */
  lemma ScenarioA()
    ensures SizeOrder(100.0, 0.5, 0.5, 1.0, 0.02, Tick01, 5.0) == Some(Sized(0.51, 5.0))
  {
  }
}
