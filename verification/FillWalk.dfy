// The depth walk of internal/bench/coordinated.go: a greedy fill of an order over the levels of
// one side of a book, its optimality among all ways to fill the same quantity, and the expected
// fill that a sample records from it.
module FillWalk {
  import opened Common
  import opened OrderBook
  import opened Windows

  datatype Depth = Depth(price: real, available: real, sufficient: bool, levelsUsed: nat, weighted: bool)

  const TOLERANCE: real := 0.000000000001

  function MinReal(a: real, b: real): real {
    if a < b then a else b
  }

  function Total(levels: seq<Level>): real {
    if levels == [] then 0.0 else levels[0].size + Total(levels[1..])
  }

  predicate PositiveSizes(levels: seq<Level>) {
    forall i | 0 <= i < |levels| :: levels[i].size > 0.0
  }

  lemma {:induction false} UsablePositive(levels: seq<Level>)
    ensures forall i | 0 <= i < |Positives(levels)| :: IsPositive(Positives(levels)[i])
    ensures PositiveSizes(Positives(levels))
    ensures (forall i | 0 <= i < |levels| :: IsPositive(levels[i])) ==> Positives(levels) == levels
  {
    if levels != [] {
      UsablePositive(levels[..|levels| - 1]);
    }
  }

  // The notional of filling q from the front of the levels.
  function Greedy(levels: seq<Level>, q: real): real {
    if levels == [] then 0.0
    else MinReal(levels[0].size, q) * levels[0].price + Greedy(levels[1..], q - MinReal(levels[0].size, q))
  }

  // ------------------------------------------------------------------ allocations

  ghost predicate Allocation(levels: seq<Level>, x: seq<real>) {
    |x| == |levels| && forall i | 0 <= i < |x| :: 0.0 <= x[i] <= levels[i].size
  }

  function Sum(x: seq<real>): real {
    if x == [] then 0.0 else x[0] + Sum(x[1..])
  }

  function Cost(levels: seq<Level>, x: seq<real>): real
    requires |x| == |levels|
  {
    if x == [] then 0.0 else x[0] * levels[0].price + Cost(levels[1..], x[1..])
  }

  ghost predicate PricesAtLeast(levels: seq<Level>, p: real) {
    forall i | 0 <= i < |levels| :: levels[i].price >= p
  }

  ghost predicate AscendingPrices(levels: seq<Level>) {
    forall i, j | 0 <= i < j < |levels| :: levels[i].price <= levels[j].price
  }

  lemma {:induction false} TotalPositive(levels: seq<Level>)
    requires PositiveSizes(levels)
    ensures Total(levels) >= 0.0 && (levels != [] ==> Total(levels) > 0.0)
  {
    if levels != [] {
      TotalPositive(levels[1..]);
    }
  }

  lemma {:induction false} AllocationBounds(levels: seq<Level>, x: seq<real>)
    requires Allocation(levels, x)
    ensures 0.0 <= Sum(x) <= Total(levels)
  {
    if x != [] {
      AllocationBounds(levels[1..], x[1..]);
    }
  }

  lemma {:induction false} GreedyZero(levels: seq<Level>)
    requires PositiveSizes(levels)
    ensures Greedy(levels, 0.0) == 0.0
  {
    if levels != [] {
      GreedyZero(levels[1..]);
    }
  }

  lemma ScaleLower(d: real, p: real, price: real)
    requires d >= 0.0 && price >= p
    ensures d * price >= d * p
  {
  }

  lemma Distribute(x: real, y: real, a: real)
    ensures (x - y) * a == x * a - y * a
  {
  }

  // g grows from g0 to g1 at no less than p per unit between q and r.
  ghost predicate GrowsBy(g0: real, g1: real, q: real, r: real, p: real) {
    g1 - g0 >= (r - q) * p
  }

  // Further units cost at least as much each as a price that no level undercuts.
  lemma {:induction false} GreedyGrowth(levels: seq<Level>, q: real, r: real, p: real)
    requires PositiveSizes(levels) && PricesAtLeast(levels, p)
    requires 0.0 <= q <= r <= Total(levels)
    ensures GrowsBy(Greedy(levels, q), Greedy(levels, r), q, r, p)
  {
    if levels == [] {
      assert r - q == 0.0;
    } else {
      var t, u := MinReal(levels[0].size, q), MinReal(levels[0].size, r);
      TotalPositive(levels[1..]);
      GreedyGrowth(levels[1..], q - t, r - u, p);
      GrowHead(t, u, levels[0].price, q, r, p, Greedy(levels[1..], q - t), Greedy(levels[1..], r - u));
    }
  }

  lemma GrowHead(t: real, u: real, price: real, q: real, r: real, p: real, g0: real, g1: real)
    requires t <= u && price >= p && GrowsBy(g0, g1, q - t, r - u, p)
    ensures GrowsBy(t * price + g0, u * price + g1, q, r, p)
  {
    ScaleLower(u - t, p, price);
    Distribute(u, t, price);
    Distribute(r - q, u - t, p);
    assert (r - u) - (q - t) == (r - q) - (u - t);
  }

  // What a fill of q costs when t of it comes from the head level and the rest costs g.
  ghost predicate HeadFirst(l: Level, t: real, g0: real, x: real, g1: real) {
    t * l.price + g0 <= x * l.price + g1
  }

  // Filling the head level first costs no more than leaving part of it to the rest.
  lemma FillHeadFirst(l: Level, rest: seq<Level>, x: real, q: real, tail: real)
    requires PositiveSizes(rest) && PricesAtLeast(rest, l.price)
    requires q == x + tail && 0.0 <= x <= l.size && 0.0 <= tail <= Total(rest)
    ensures HeadFirst(l, MinReal(l.size, q), Greedy(rest, q - MinReal(l.size, q)), x, Greedy(rest, tail))
  {
    var t := MinReal(l.size, q);
    GreedyGrowth(rest, q - t, tail, l.price);
    HeadFilled(l, t, x, q, tail, Greedy(rest, q - t), Greedy(rest, tail));
  }

  lemma HeadFilled(l: Level, t: real, x: real, q: real, tail: real, g0: real, g1: real)
    requires q == x + tail && GrowsBy(g0, g1, q - t, tail, l.price)
    ensures HeadFirst(l, t, g0, x, g1)
  {
    Distribute(t, x, l.price);
    assert tail - (q - t) == t - x;
  }

  // Over ascending prices the walk is the cheapest way to fill a quantity.
  lemma {:induction false} GreedyCheapest(levels: seq<Level>, x: seq<real>)
    requires PositiveSizes(levels) && AscendingPrices(levels) && Allocation(levels, x)
    ensures Greedy(levels, Sum(x)) <= Cost(levels, x)
  {
    if x != [] {
      AllocationBounds(levels[1..], x[1..]);
      FillHeadFirst(levels[0], levels[1..], x[0], Sum(x), Sum(x[1..]));
      GreedyCheapest(levels[1..], x[1..]);
    }
  }

  // The walk's own allocation: it fills the quantity at the walk's notional.
  function Walk(levels: seq<Level>, q: real): seq<real> {
    if levels == [] then []
    else [MinReal(levels[0].size, q)] + Walk(levels[1..], q - MinReal(levels[0].size, q))
  }

  lemma {:induction false} WalkFills(levels: seq<Level>, q: real)
    requires PositiveSizes(levels) && 0.0 <= q
    ensures Allocation(levels, Walk(levels, q))
    ensures Sum(Walk(levels, q)) == MinReal(q, Total(levels))
  {
    if levels != [] {
      var t := MinReal(levels[0].size, q);
      WalkFills(levels[1..], q - t);
      TotalPositive(levels[1..]);
      var w := Walk(levels, q);
      assert w[0] == t && w[1..] == Walk(levels[1..], q - t);
    }
  }

  lemma {:induction false} WalkCost(levels: seq<Level>, q: real)
    ensures |Walk(levels, q)| == |levels|
    ensures Cost(levels, Walk(levels, q)) == Greedy(levels, q)
  {
    if levels != [] {
      var t := MinReal(levels[0].size, q);
      WalkCost(levels[1..], q - t);
      assert Walk(levels, q)[1..] == Walk(levels[1..], q - t);
    }
  }

  function Mirror(levels: seq<Level>): (r: seq<Level>)
    ensures |r| == |levels| && forall i | 0 <= i < |r| :: r[i] == Level(-levels[i].price, levels[i].size)
  {
    seq(|levels|, i requires 0 <= i < |levels| => Level(-levels[i].price, levels[i].size))
  }

  lemma {:induction false} MirrorNegates(levels: seq<Level>, x: seq<real>, q: real)
    requires |x| == |levels|
    ensures Greedy(Mirror(levels), q) == -Greedy(levels, q)
    ensures Cost(Mirror(levels), x) == -Cost(levels, x)
  {
    if levels != [] {
      assert Mirror(levels)[1..] == Mirror(levels[1..]);
      MirrorNegates(levels[1..], x[1..], q - MinReal(levels[0].size, q));
    }
  }

  // The prices of the levels get no better from one level to the next.
  ghost predicate Worsening(levels: seq<Level>, side: Side) {
    forall i, j | 0 <= i < j < |levels| :: !Better(side, levels[j].price, levels[i].price)
  }

  // The walk's notional is minimal among all fills of the same quantity from asks and maximal
  // among those from bids, and it is itself the notional of such a fill.
  lemma GreedyOptimal(levels: seq<Level>, side: Side, q: real, x: seq<real>)
    requires PositiveSizes(levels) && Worsening(levels, side)
    requires 0.0 <= q && Allocation(levels, x) && Sum(x) == MinReal(q, Total(levels))
    ensures side.Asks? ==> Greedy(levels, q) <= Cost(levels, x)
    ensures side.Bids? ==> Greedy(levels, q) >= Cost(levels, x)
    ensures Allocation(levels, Walk(levels, q)) && Sum(Walk(levels, q)) == Sum(x) && Cost(levels, Walk(levels, q)) == Greedy(levels, q)
  {
    WalkFills(levels, q);
    WalkCost(levels, q);
    GreedyCapped(levels, q);
    if side.Asks? {
      AsksAscend(levels);
      GreedyCheapest(levels, x);
    } else {
      forall i, j | 0 <= i < j < |levels| ensures Mirror(levels)[i].price <= Mirror(levels)[j].price {
        assert !Better(side, levels[j].price, levels[i].price);
      }
      GreedyCheapest(Mirror(levels), x);
      MirrorNegates(levels, x, Sum(x));
    }
  }

  lemma {:induction false} GreedyCapped(levels: seq<Level>, q: real)
    requires PositiveSizes(levels) && 0.0 <= q
    ensures Greedy(levels, q) == Greedy(levels, MinReal(q, Total(levels)))
  {
    if levels != [] {
      TotalPositive(levels[1..]);
      var t := MinReal(levels[0].size, q);
      GreedyCapped(levels[1..], q - t);
      assert MinReal(levels[0].size, MinReal(q, Total(levels))) == t;
      assert MinReal(q - t, Total(levels[1..])) == MinReal(q, Total(levels)) - t;
    }
  }

  // ------------------------------------------------------------------ the average price

  // Nothing before q costs more than p and nothing between q and r costs less.
  ghost predicate Splits(gq: real, gr: real, q: real, r: real, p: real) {
    gq <= q * p && GrowsBy(gq, gr, q, r, p)
  }

  lemma {:induction false} SplitPrice(levels: seq<Level>, q: real, r: real) returns (p: real)
    requires PositiveSizes(levels) && AscendingPrices(levels) && levels != []
    requires 0.0 <= q <= r <= Total(levels)
    ensures Splits(Greedy(levels, q), Greedy(levels, r), q, r, p)
    ensures p >= levels[0].price
  {
    if q <= levels[0].size {
      p := levels[0].price;
      SplitWithin(levels, q, r);
    } else {
      var size := levels[0].size;
      RestHolds(levels, q, r);
      RestAscends(levels);
      GreedyBeyond(levels, q);
      GreedyBeyond(levels, r);
      p := SplitPrice(levels[1..], q - size, r - size);
      SplitHead(size, levels[0].price, q, r, p, Greedy(levels[1..], q - size), Greedy(levels[1..], r - size));
    }
  }

  // An order beyond the first level reaches into the others, which the walk fills after it.
  lemma RestHolds(levels: seq<Level>, q: real, r: real)
    requires PositiveSizes(levels) && levels != [] && levels[0].size < q <= r <= Total(levels)
    ensures levels[1..] != []
    ensures 0.0 <= q - levels[0].size <= r - levels[0].size <= Total(levels[1..])
  {
    assert Total(levels[1..]) > 0.0;
  }

  lemma RestAscends(levels: seq<Level>)
    requires PositiveSizes(levels) && AscendingPrices(levels) && |levels| > 1
    ensures PositiveSizes(levels[1..]) && AscendingPrices(levels[1..]) && levels[1..][0].price >= levels[0].price
  {
  }

  lemma GreedyBeyond(levels: seq<Level>, q: real)
    requires levels != [] && q > levels[0].size
    ensures Greedy(levels, q) == levels[0].size * levels[0].price + Greedy(levels[1..], q - levels[0].size)
  {
    assert MinReal(levels[0].size, q) == levels[0].size;
  }

  lemma SplitWithin(levels: seq<Level>, q: real, r: real)
    requires PositiveSizes(levels) && AscendingPrices(levels) && levels != []
    requires 0.0 <= q <= r <= Total(levels) && q <= levels[0].size
    ensures Splits(Greedy(levels, q), Greedy(levels, r), q, r, levels[0].price)
  {
    GreedyZero(levels[1..]);
    GreedyGrowth(levels, q, r, levels[0].price);
    assert MinReal(levels[0].size, q) == q;
  }

  lemma SplitHead(size: real, price: real, q: real, r: real, p: real, g0: real, g1: real)
    requires size > 0.0 && p >= price && Splits(g0, g1, q - size, r - size, p)
    ensures Splits(size * price + g0, size * price + g1, q, r, p)
  {
    ScaleLower(size, price, p);
    Distribute(q, size, p);
    assert (r - size) - (q - size) == r - q;
  }

  // The average price paid on the asks never falls as the filled size grows.
  lemma AverageNeverFalls(levels: seq<Level>, q1: real, q2: real)
    requires PositiveSizes(levels) && Worsening(levels, Asks)
    requires 0.0 < q1 <= q2 <= Total(levels)
    ensures Greedy(levels, q1) / q1 <= Greedy(levels, q2) / q2
  {
    AsksAscend(levels);
    var p := SplitPrice(levels, q1, q2);
    SplitAverage(levels, q1, q2, p);
  }

  lemma SplitAverage(levels: seq<Level>, q1: real, q2: real, p: real)
    requires 0.0 < q1 <= q2 && Splits(Greedy(levels, q1), Greedy(levels, q2), q1, q2, p)
    ensures Greedy(levels, q1) / q1 <= Greedy(levels, q2) / q2
  {
    CrossMultiply(Greedy(levels, q1), Greedy(levels, q2), q1, q2, p);
  }

  lemma AsksAscend(levels: seq<Level>)
    requires Worsening(levels, Asks)
    ensures AscendingPrices(levels)
  {
    forall i, j | 0 <= i < j < |levels| ensures levels[i].price <= levels[j].price {
      assert !Better(Asks, levels[j].price, levels[i].price);
    }
  }

  lemma CrossMultiply(g1: real, g2: real, q1: real, q2: real, p: real)
    requires 0.0 < q1 <= q2 && Splits(g1, g2, q1, q2, p)
    ensures g1 / q1 <= g2 / q2
  {
    var a := g1 / q1;
    DivisionBound(g1, q1, p);
    ScaleLower(q2 - q1, a, p);
    Distribute(q2, q1, a);
    assert g1 == q1 * a;
    DivisionBoundBelow(g2, q2, a);
  }

  lemma DivisionBound(g: real, q: real, p: real)
    requires q > 0.0 && g <= q * p
    ensures g / q <= p
  {
    var a := g / q;
    assert g == q * a;
    if a > p {
      assert q * (a - p) > 0.0;
      Distribute(a, p, q);
    }
  }

  lemma DivisionBoundBelow(g: real, q: real, p: real)
    requires q > 0.0 && g >= q * p
    ensures g / q >= p
  {
    var a := g / q;
    assert g == q * a;
    if a < p {
      assert q * (p - a) > 0.0;
      Distribute(p, a, q);
    }
  }

  // ------------------------------------------------------------------ the walk itself

  // What the walk takes from a level that follows the others.
  function TakenAfter(levels: seq<Level>, l: Level, q: real): real {
    if q <= Total(levels) then 0.0 else MinReal(l.size, q - Total(levels))
  }

  lemma {:induction false} TotalAppend(levels: seq<Level>, l: Level)
    ensures Total(levels + [l]) == Total(levels) + l.size
  {
    if levels == [] {
      assert levels + [l] == [l];
    } else {
      assert (levels + [l])[1..] == levels[1..] + [l];
      TotalAppend(levels[1..], l);
    }
  }

  lemma TakenFromRest(levels: seq<Level>, l: Level, q: real)
    requires PositiveSizes(levels) && levels != [] && l.size > 0.0 && q >= 0.0
    ensures var left := q - MinReal(levels[0].size, q); left >= 0.0 && TakenAfter(levels[1..], l, left) == TakenAfter(levels, l, q)
  {
    TotalPositive(levels[1..]);
  }

  lemma {:induction false} GreedyAppend(levels: seq<Level>, l: Level, q: real, t: real)
    requires PositiveSizes(levels) && l.size > 0.0 && q >= 0.0 && t == TakenAfter(levels, l, q)
    ensures Greedy(levels + [l], q) == Greedy(levels, q) + t * l.price
  {
    if levels == [] {
      GreedyOne(levels, l, q, t);
    } else {
      var left := q - MinReal(levels[0].size, q);
      TakenFromRest(levels, l, q);
      GreedyAppend(levels[1..], l, left, t);
      GreedyHead(levels, l, q);
    }
  }

  lemma GreedyOne(levels: seq<Level>, l: Level, q: real, t: real)
    requires levels == [] && t == TakenAfter(levels, l, q) && l.size > 0.0 && q >= 0.0
    ensures Greedy(levels + [l], q) == Greedy(levels, q) + t * l.price
  {
    assert levels + [l] == [l];
    assert MinReal(l.size, q) == t;
  }

  lemma GreedyHead(levels: seq<Level>, l: Level, q: real)
    requires levels != []
    ensures var left := q - MinReal(levels[0].size, q);
            Greedy(levels + [l], q) - Greedy(levels, q) == Greedy(levels[1..] + [l], left) - Greedy(levels[1..], left)
  {
    assert (levels + [l])[1..] == levels[1..] + [l];
  }

  // price is the average at which the walk fills as much of q as the levels hold.
  ghost predicate WalkPrice(levels: seq<Level>, q: real, price: real) {
    price * MinReal(q, Total(levels)) == Greedy(levels, q)
  }

  lemma QuotientTimes(n: real, d: real)
    requires d != 0.0
    ensures (n / d) * d == n
  {
  }

  // n is the number of levels that the walk takes from.
  ghost predicate LevelsTaken(levels: seq<Level>, q: real, n: nat) {
    && n <= |levels|
    && (n > 0 ==> Total(levels[..n - 1]) < q)
    && (n < |levels| ==> Total(levels[..n]) >= q)
  }

  lemma TakenStep(us: seq<Level>, l: Level, q: real, n: nat)
    requires PositiveSizes(us) && q > 0.0 && LevelsTaken(us, q, n)
    requires Total(us) < q ==> n == |us|
    ensures LevelsTaken(us + [l], q, if Total(us) < q then n + 1 else n)
  {
    var more := us + [l];
    assert more[..|us|] == us;
    if n > 0 {
      assert more[..n - 1] == us[..n - 1];
    }
    assert more[..n] == us[..n];
    assert us[..|us|] == us;
  }

  // The running totals of the walk after the usable levels us.
  ghost predicate WalkState(us: seq<Level>, size: real, available: real, filled: real, notional: real, used: nat) {
    && PositiveSizes(us)
    && available == Total(us) && filled == MinReal(size, Total(us))
    && notional == Greedy(us, size)
    && LevelsTaken(us, size, used) && (Total(us) < size ==> used == |us|)
  }

  lemma WalkStep(us: seq<Level>, l: Level, size: real, available: real, filled: real, notional: real, used: nat, take: real)
    requires size > 0.0 && WalkState(us, size, available, filled, notional, used) && IsPositive(l)
    requires filled < size && take == MinReal(l.size, size - filled)
    ensures WalkState(us + [l], size, available + l.size, filled + take, notional + take * l.price, used + 1)
  {
    GreedyAppend(us, l, size, take);
    TotalAppend(us, l);
    TakenStep(us, l, size, used);
  }

  lemma WalkSkip(us: seq<Level>, l: Level, size: real, available: real, filled: real, notional: real, used: nat)
    requires size > 0.0 && WalkState(us, size, available, filled, notional, used) && IsPositive(l)
    requires filled >= size
    ensures WalkState(us + [l], size, available + l.size, filled, notional, used)
  {
    GreedyAppend(us, l, size, 0.0);
    TotalAppend(us, l);
    TakenStep(us, l, size, used);
  }

  // What the walk over the usable levels us reports.
  ghost predicate DepthOf(us: seq<Level>, size: real, out: Depth) {
    && out.available == Total(us)
    && LevelsTaken(us, size, out.levelsUsed)
    && (us == [] ==> out == Depth(0.0, 0.0, false, 0, false))
    && (us != [] ==>
          && WalkPrice(us, size, out.price)
          && (out.sufficient <==> Total(us) >= size - TOLERANCE)
          && (out.weighted <==> out.sufficient && out.levelsUsed > 1))
  }

  method ExpectedFillFromDepth(levels: seq<Level>, size: real) returns (out: Depth)
    ensures size <= 0.0 || levels == [] ==> out == Depth(0.0, 0.0, false, 0, false)
    ensures size > 0.0 ==> DepthOf(Positives(levels), size, out)
  {
    if size <= 0.0 || levels == [] {
      return Depth(0.0, 0.0, false, 0, false);
    }
    var available, filled, notional, remaining, used := 0.0, 0.0, 0.0, size, 0;
    ghost var us: seq<Level> := [];
    for i := 0 to |levels|
      invariant us == Positives(levels[..i])
      invariant WalkState(us, size, available, filled, notional, used) && remaining == size - filled
    {
      assert levels[..i + 1][..i] == levels[..i];
      var level := levels[i];
      if level.price <= 0.0 || level.size <= 0.0 {
        continue;
      }
      if remaining <= 0.0 {
        WalkSkip(us, level, size, available, filled, notional, used);
        us, available := us + [level], available + level.size;
        continue;
      }
      var take := level.size;
      if take > remaining {
        take := remaining;
      }
      WalkStep(us, level, size, available, filled, notional, used, take);
      us, available := us + [level], available + level.size;
      filled := filled + take;
      notional := notional + take * level.price;
      remaining := remaining - take;
      used := used + 1;
    }
    assert levels[..|levels|] == levels;
    TotalPositive(us);
    if filled <= 0.0 {
      return Depth(0.0, available, false, used, false);
    }
    WalkEnd(us, size, available, filled, notional, used);
    var sufficient := filled >= size || remaining <= TOLERANCE;
    out := Depth(notional / filled, available, sufficient, used, sufficient && used > 1);
  }

  lemma WalkEnd(us: seq<Level>, size: real, available: real, filled: real, notional: real, used: nat)
    requires size > 0.0 && WalkState(us, size, available, filled, notional, used) && filled > 0.0
    ensures var sufficient := filled >= size || size - filled <= TOLERANCE;
            DepthOf(us, size, Depth(notional / filled, available, sufficient, used, sufficient && used > 1))
  {
    QuotientTimes(notional, filled);
    assert us != [];
  }

  // ------------------------------------------------------------------ the recorded expectation

  datatype ExpectedFill = ExpectedFill(phase: string, side: string, size: real, price: real,
                                       topAvailable: real, topSufficient: bool, depth: Depth, bookAge: int)

  function OppositeSide(side: string): string {
    if EqualFold(side, "buy") then "sell" else "buy"
  }

  function FillSide(orderSide: string, phase: string): string {
    if phase == "exit" then OppositeSide(orderSide) else orderSide
  }

  // What is recorded of the snapshot: its age, the top size of the side walked and whether that
  // covers the order, where it is known; and, when no level can be walked, the top price with that
  // size in place of the depth.
  ghost predicate Recorded(fill: ExpectedFill, s: Snapshot, orderSide: string, size: real, phase: string, at: int) {
    && fill.phase == phase && fill.size == size
    && fill.side == (if phase != "exit" then orderSide else if Lower(orderSide) == "buy" then "sell" else "buy")
    && (s.receivedAt != 0 ==> s.receivedAt + fill.bookAge == at) && (s.receivedAt == 0 ==> fill.bookAge == 0)
    && var selling := EqualFold(fill.side, "sell");
    && var top, topPrice, ladder := if selling then s.bidSize else s.askSize, if selling then s.bid else s.ask, if selling then s.bids else s.asks;
    && fill.topAvailable == top && (fill.topSufficient <==> top <= 0.0 || top >= size)
    && (Positives(ladder) != [] ==> DepthOf(Positives(ladder), size, fill.depth) && fill.price == fill.depth.price)
    && (Positives(ladder) == [] ==> fill.price == topPrice && fill.depth == Depth(0.0, top, fill.topSufficient, if top > 0.0 then 1 else 0, false))
  }

  // A fill is expected exactly when there is a book, a positive size and a snapshot not after the
  // time asked for.  A buy walks that snapshot's asks and a sell its bids, and the exit walks the
  // other side than the entry.
  method AddExpectedFill(book: Tracker?, orderSide: string, orderSize: real, phase: string, at: int, now: int)
      returns (fill: Option<ExpectedFill>, ghost used: Option<Snapshot>)
    requires book != null ==> book.Valid()
    requires at != 0 || now != 0
    ensures book == null || orderSize <= 0.0 ==> fill.None?
    ensures book != null && orderSize > 0.0 ==>
              && NewestUsable(LastN(book.log, 2048), if at == 0 then now else at, used)
              && (fill.Some? <==> used.Some?)
    ensures fill.Some? ==> used.Some? && Recorded(fill.value, used.value, orderSide, orderSize, phase, if at == 0 then now else at)
    ensures fill.Some? ==>
              && used.Some?
              && fill.value.side == FillSide(orderSide, phase)
              && var ladder := if EqualFold(fill.value.side, "sell") then used.value.bids else used.value.asks;
                 && ((forall l | l in ladder :: IsPositive(l)) && ladder != [] ==>
                      WalkPrice(ladder, orderSize, fill.value.price)
                      && (fill.value.depth.sufficient <==> Total(ladder) + 0.000000000001 >= orderSize))
  {
    fill, used := None, None;
    if book == null || orderSize <= 0.0 {
      return;
    }
    var when := if at == 0 then now else at;
    var found := book.SnapshotAt(when);
    used := found;
    if found.None? {
      return;
    }
    var snapshot := found.value;
    var side := orderSide;
    if phase == "exit" {
      side := OppositeSide(side);
    }
    var price, available, levels := snapshot.ask, snapshot.askSize, snapshot.asks;
    if EqualFold(side, "sell") {
      price, available, levels := snapshot.bid, snapshot.bidSize, snapshot.bids;
    }
    var depth := ExpectedFillFromDepth(levels, orderSize);
    LadderPriced(levels, orderSize, depth);
    if depth.price > 0.0 {
      price := depth.price;
    } else {
      depth := depth.(available := available, sufficient := available <= 0.0 || available >= orderSize);
      if available > 0.0 {
        depth := depth.(levelsUsed := 1);
      }
    }
    fill := Some(ExpectedFill(phase, side, orderSize, price, available,
                              available <= 0.0 || available >= orderSize, depth, if snapshot.receivedAt == 0 then 0 else when - snapshot.receivedAt));
  }

  lemma GreedyPositive(levels: seq<Level>, q: real)
    requires levels != [] && q > 0.0 && forall i | 0 <= i < |levels| :: IsPositive(levels[i])
    ensures Greedy(levels, q) > 0.0
  {
    var t := MinReal(levels[0].size, q);
    GreedyNonNegative(levels[1..], q - t);
    assert t * levels[0].price > 0.0;
  }

  lemma PositiveFactor(price: real, f: real, g: real)
    requires price * f == g && g > 0.0 && f > 0.0
    ensures price > 0.0
  {
    if price <= 0.0 {
      ScaleLower(f, price, 0.0);
    }
  }

  lemma WalkPricePositive(levels: seq<Level>, q: real, price: real)
    requires levels != [] && q > 0.0 && forall l | l in levels :: IsPositive(l)
    requires WalkPrice(levels, q, price)
    ensures price > 0.0
  {
    assert forall i | 0 <= i < |levels| :: levels[i] in levels && IsPositive(levels[i]);
    TotalPositive(levels);
    GreedyPositive(levels, q);
    PositiveFactor(price, MinReal(q, Total(levels)), Greedy(levels, q));
  }

  lemma {:induction false} GreedyNonNegative(levels: seq<Level>, q: real)
    requires q >= 0.0 && forall i | 0 <= i < |levels| :: IsPositive(levels[i])
    ensures Greedy(levels, q) >= 0.0
  {
    if levels != [] {
      var t := MinReal(levels[0].size, q);
      GreedyNonNegative(levels[1..], q - t);
      assert t * levels[0].price >= 0.0;
    }
  }

  // A ladder with a positive level gives a positive price.
  lemma LadderPriced(levels: seq<Level>, size: real, depth: Depth)
    requires size > 0.0 && DepthOf(Positives(levels), size, depth)
    ensures depth.price > 0.0 <==> Positives(levels) != []
    ensures (forall l | l in levels :: IsPositive(l)) ==> Positives(levels) == levels
  {
    UsablePositive(levels);
    if Positives(levels) != [] {
      WalkPricePositive(Positives(levels), size, depth.price);
    }
    if forall l | l in levels :: IsPositive(l) {
      assert forall i | 0 <= i < |levels| :: levels[i] in levels && IsPositive(levels[i]);
    }
  }
}
