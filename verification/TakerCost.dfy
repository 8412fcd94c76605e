// The cost of a taker round trip as two programs compute it: fills are aggregated and turned into
// a trade cost by internal/venues/cost_common.py, and frontend/src/lib/taker-cost.ts splits that
// cost into an expected part and slippage.  The two accounts are compared algebraically.
module TakerCost {
  import opened Common
  import FillWalk
  import opened Windows

  // ------------------------------------------------------------------ aggregated fills

  datatype FillSide = BuyFill | SellFill | Uncounted

  function SideOf(side: string): FillSide {
    var word := Lower(side);
    if word in {"buy", "b", "bid", "long"} then BuyFill
    else if word in {"sell", "s", "a", "ask", "short"} then SellFill
    else Uncounted
  }

  // The words for a side, in whatever letter case.
  lemma SideWords(side: string)
    ensures SideOf(side) == BuyFill <==> Lower(side) in {"buy", "b", "bid", "long"}
    ensures SideOf(side) == SellFill <==> Lower(side) in {"sell", "s", "a", "ask", "short"}
  {
  }

  datatype Fill = Fill(side: FillSide, qty: real, value: real, fee: real, timeMs: int)

  datatype Aggregate = Aggregate(buyQty: real, sellQty: real, buyValue: real, sellValue: real,
                                 fee: real, count: nat, lastTimeMs: int)

  const NEW_AGGREGATE := Aggregate(0.0, 0.0, 0.0, 0.0, 0.0, 0, 0)

  function Abs(x: real): real {
    if x < 0.0 then -x else x
  }

  lemma AbsIs(x: real)
    ensures Abs(x) >= 0.0 && Abs(x) * Abs(x) == x * x
  {
  }

  function AddFill(a: Aggregate, f: Fill): Aggregate {
    if f.side.BuyFill? then
      Aggregate(a.buyQty + f.qty, a.sellQty, a.buyValue + f.value, a.sellValue, a.fee + Abs(f.fee), a.count + 1, Max(a.lastTimeMs, f.timeMs))
    else if f.side.SellFill? then
      Aggregate(a.buyQty, a.sellQty + f.qty, a.buyValue, a.sellValue + f.value, a.fee + Abs(f.fee), a.count + 1, Max(a.lastTimeMs, f.timeMs))
    else a
  }

  function AddFills(fills: seq<Fill>): Aggregate {
    if fills == [] then NEW_AGGREGATE else AddFill(AddFills(fills[..|fills| - 1]), fills[|fills| - 1])
  }

  lemma AddLast(fills: seq<Fill>, f: Fill)
    ensures AddFills(fills + [f]) == AddFill(AddFills(fills), f)
  {
    assert (fills + [f])[..|fills|] == fills;
  }

  function SumOf(fills: seq<Fill>, term: Fill -> real): real {
    if fills == [] then 0.0 else SumOf(fills[..|fills| - 1], term) + term(fills[|fills| - 1])
  }

  lemma SumGrows(fills: seq<Fill>, f: Fill, term: Fill -> real)
    ensures SumOf(fills + [f], term) == SumOf(fills, term) + term(f) && SumOf([], term) == 0.0
  {
    assert (fills + [f])[..|fills|] == fills;
  }

  function BuyQty(f: Fill): real { if f.side.BuyFill? then f.qty else 0.0 }

  function BuyValue(f: Fill): real { if f.side.BuyFill? then f.value else 0.0 }

  function SellQty(f: Fill): real { if f.side.SellFill? then f.qty else 0.0 }

  function SellValue(f: Fill): real { if f.side.SellFill? then f.value else 0.0 }

  function PaidFee(f: Fill): real { if !f.side.Uncounted? then Abs(f.fee) else 0.0 }

  // Each total is the sum of its fills' terms; fills with another side word count for nothing.
  lemma {:induction false} AggregateTotals(fills: seq<Fill>)
    ensures var a := AddFills(fills);
            && a.buyQty == SumOf(fills, BuyQty) && a.buyValue == SumOf(fills, BuyValue)
            && a.sellQty == SumOf(fills, SellQty) && a.sellValue == SumOf(fills, SellValue)
            && a.fee == SumOf(fills, PaidFee)
  {
    if fills != [] {
      AggregateTotals(fills[..|fills| - 1]);
    }
  }

  lemma AddFillCommutes(a: Aggregate, f: Fill, g: Fill)
    ensures AddFill(AddFill(a, f), g) == AddFill(AddFill(a, g), f)
  {
  }

  // A fill may be moved to the end.
  lemma {:induction false} MoveToEnd(fills: seq<Fill>, k: nat)
    requires k < |fills|
    ensures AddFills(fills) == AddFill(AddFills(fills[..k] + fills[k + 1..]), fills[k])
  {
    var n := |fills| - 1;
    if k == n {
      assert fills[..k] + fills[k + 1..] == fills[..n];
    } else {
      MoveToEnd(fills[..n], k);
      var rest := fills[..k] + fills[k + 1..];
      assert rest[..n - 1] == fills[..n][..k] + fills[..n][k + 1..];
      assert rest[n - 1] == fills[n];
      AddFillCommutes(AddFills(rest[..n - 1]), fills[k], fills[n]);
    }
  }

  // The aggregate does not depend on the order in which the fills arrive.
  lemma {:induction false} OrderIndependent(a: seq<Fill>, b: seq<Fill>)
    requires multiset(a) == multiset(b)
    ensures AddFills(a) == AddFills(b)
    decreases |a|
  {
    if a == [] {
      assert |multiset(b)| == 0;
      assert b == [];
    } else {
      var n := |a| - 1;
      var k := TakeOut(a, b);
      OrderIndependent(a[..n], b[..k] + b[k + 1..]);
      MoveToEnd(b, k);
    }
  }

  // The dictionary that add_fill updates in place.
  class FillAggregate {
    var buyQty: real
    var sellQty: real
    var buyValue: real
    var sellValue: real
    var fee: real
    var count: nat
    var lastTimeMs: int
    ghost var fills: seq<Fill>

    ghost function View(): Aggregate reads this {
      Aggregate(buyQty, sellQty, buyValue, sellValue, fee, count, lastTimeMs)
    }

    ghost predicate Valid() reads this {
      View() == AddFills(fills)
    }

    constructor ()
      ensures Valid() && fills == []
    {
      buyQty, sellQty, buyValue, sellValue, fee, count, lastTimeMs := 0.0, 0.0, 0.0, 0.0, 0.0, 0, 0;
      fills := [];
    }

    method Add(side: string, qty: real, value: real, feePaid: real, timeMs: int)
      requires Valid()
      modifies this
      ensures Valid() && fills == old(fills) + [Fill(SideOf(side), qty, value, feePaid, timeMs)]
    {
      AddSided(SideOf(side), qty, value, feePaid, timeMs);
    }

    method AddSided(side: FillSide, qty: real, value: real, feePaid: real, timeMs: int)
      requires Valid()
      modifies this
      ensures Valid() && fills == old(fills) + [Fill(side, qty, value, feePaid, timeMs)]
    {
      ghost var f := Fill(side, qty, value, feePaid, timeMs);
      ghost var before := View();
      AddLast(fills, f);
      fills := fills + [f];
      match side {
        case BuyFill => buyQty, buyValue := buyQty + qty, buyValue + value;
        case SellFill => sellQty, sellValue := sellQty + qty, sellValue + value;
        case Uncounted => return;
      }
      fee := fee + Abs(feePaid);
      count := count + 1;
      lastTimeMs := Max(lastTimeMs, timeMs);
      assert View() == AddFill(before, f);
    }

    // An aggregate without a counted fill is no aggregate.
    method Finish() returns (r: Option<Aggregate>)
      requires Valid()
      ensures r == if AddFills(fills).count == 0 then None else Some(AddFills(fills))
    {
      if count == 0 {
        return None;
      }
      r := Some(Aggregate(buyQty, sellQty, buyValue, sellValue, fee, count, lastTimeMs));
    }
  }

  // ------------------------------------------------------------------ the round trip cost

  datatype Amounts = Amounts(entryQty: real, exitQty: real, entryValue: real, exitValue: real,
                             entryFee: real, exitFee: real, priceMove: real, tradeCost: real, reconciliationDiff: real)

  // The quality reasons.
  datatype Quality = Complete | MissingFill | IncompleteFill | ReconciliationDiffers

  // The amounts are absent when a fill is missing.
  datatype Cost = Cost(amounts: Option<Amounts>, clean: bool, quality: Quality)

  function PriceMove(entry: Aggregate, exit: Aggregate): real {
    if entry.buyQty >= entry.sellQty then entry.buyValue - exit.sellValue else exit.buyValue - entry.sellValue
  }

  function EntryValue(a: Aggregate): real {
    a.buyValue + a.sellValue
  }

  function MaxReal(a: real, b: real): real {
    if a > b then a else b
  }

  predicate IncompleteQty(actual: real, expected: real) {
    expected > 0.0 && actual + MaxReal(expected * 0.000001, 0.00000001) < expected
  }

  // A leg is incomplete when it is short of a positive expected quantity by more than a millionth of
  // it and more than a hundred-millionth of one.
  lemma IncompleteIff(actual: real, expected: real)
    ensures IncompleteQty(actual, expected) <==>
              expected > 0.0 && expected - actual > expected / 1000000.0 && expected - actual > 1.0 / 100000000.0
  {
  }

  method BuildRoundTripCost(before: real, after: real, entry: Option<Aggregate>, exit: Option<Aggregate>,
                            expectedEntryQty: real, expectedExitQty: real, tolerance: real) returns (cost: Cost)
    ensures cost.amounts.Some? <==> entry.Some? && exit.Some?
    ensures cost.amounts.Some? ==>
              var m, e, x := cost.amounts.value, entry.value, exit.value;
              && m.entryQty == e.buyQty + e.sellQty && m.exitQty == x.buyQty + x.sellQty
              && m.entryValue == EntryValue(e) && m.exitValue == EntryValue(x)
              && m.entryFee == e.fee && m.exitFee == x.fee
              && m.priceMove == PriceMove(e, x)
              && m.tradeCost == m.priceMove + m.entryFee + m.exitFee
              && after - before + m.tradeCost + m.reconciliationDiff == 0.0
    ensures cost.clean <==>
              && cost.amounts.Some?
              && !IncompleteQty(cost.amounts.value.entryQty, expectedEntryQty)
              && !IncompleteQty(cost.amounts.value.exitQty, expectedExitQty)
              && -tolerance <= cost.amounts.value.reconciliationDiff <= tolerance
    ensures cost.clean <==> cost.quality == Complete
    ensures cost.quality == MissingFill <==> cost.amounts.None?
    ensures cost.quality == ReconciliationDiffers <==>
              cost.amounts.Some? && !(-tolerance <= cost.amounts.value.reconciliationDiff <= tolerance)
  {
    if entry.None? || exit.None? {
      return Cost(None, false, MissingFill);
    }
    var e, x := entry.value, exit.value;
    var entryQty, exitQty := e.buyQty + e.sellQty, x.buyQty + x.sellQty;
    var bought := e.buyQty >= e.sellQty;
    var priceMove;
    if bought {
      priceMove := e.buyValue - x.sellValue;
    } else {
      priceMove := x.buyValue - e.sellValue;
    }
    var tradeCost := priceMove + e.fee + x.fee;
    var balanceCost := -(after - before);
    var diff := balanceCost - tradeCost;
    cost := Cost(Some(Amounts(entryQty, exitQty, e.buyValue + e.sellValue, x.buyValue + x.sellValue,
                              e.fee, x.fee, priceMove, tradeCost, diff)), true, Complete);
    if (expectedEntryQty > 0.0 && IncompleteQty(entryQty, expectedEntryQty)) || (expectedExitQty > 0.0 && IncompleteQty(exitQty, expectedExitQty)) {
      cost := cost.(clean := false, quality := IncompleteFill);
    }
    if Abs(diff) > tolerance {
      cost := cost.(clean := false, quality := ReconciliationDiffers);
    }
  }

  // ------------------------------------------------------------------ expectation and slippage

  datatype ExpectedFill = ExpectedFill(side: Option<string>, expectedPrice: Option<real>,
                                       bookSufficient: Option<bool>, topSufficient: Option<bool>)

  function UsableExpectedPrice(fill: Option<ExpectedFill>): Option<real> {
    if fill.None? || fill.value.expectedPrice.None? || fill.value.expectedPrice.value <= 0.0 then None
    else if fill.value.bookSufficient == Some(false) then None
    else if fill.value.bookSufficient.None? && fill.value.topSufficient == Some(false) then None
    else fill.value.expectedPrice
  }

  // A price is used exactly when it is positive and nothing says that the book was too thin for
  // the fill: the whole book decides where it is known, and only otherwise its top.
  lemma UsableIff(fill: ExpectedFill)
    ensures var used := UsableExpectedPrice(Some(fill));
            && (used.Some? ==> used == fill.expectedPrice && used.value > 0.0)
            && (used.Some? <==>
                  && fill.expectedPrice.Some? && fill.expectedPrice.value > 0.0
                  && match fill.bookSufficient
                     case Some(deep) => deep
                     case None => fill.topSufficient != Some(false))
    ensures UsableExpectedPrice(None) == None
  {
  }

  predicate SellSide(fill: Option<ExpectedFill>) {
    fill.Some? && fill.value.side.Some? && Lower(fill.value.side.value) == "sell"
  }

  function AveragePrice(value: real, qty: real): Option<real> {
    if qty <= 0.0 then None else Some(value / qty)
  }

  function FillSlippage(fill: Option<ExpectedFill>, actual: Option<real>, qty: real): Option<real> {
    var expected := UsableExpectedPrice(fill);
    if actual.None? || expected.None? then None
    else if SellSide(fill) then Some((expected.value - actual.value) * qty)
    else Some((actual.value - expected.value) * qty)
  }

  // A sell slips when it brings less than expected, and every other side, or none told, when it
  // costs more.
  lemma SlippageIs(fill: ExpectedFill, actual: real, qty: real)
    requires UsableExpectedPrice(Some(fill)).Some?
    ensures var slip, price := FillSlippage(Some(fill), Some(actual), qty), fill.expectedPrice.value;
            && slip.Some?
            && (fill.side.Some? && Lower(fill.side.value) == "sell" ==> slip.value == (price - actual) * qty)
            && (fill.side.None? || Lower(fill.side.value) != "sell" ==> slip.value == (actual - price) * qty)
  {
  }

  function ExpectedLegCost(fill: Option<ExpectedFill>, price: real, qty: real): real {
    if SellSide(fill) then -price * qty else price * qty
  }

  datatype TakerRecord = TakerRecord(gap: Option<real>, entrySlippage: Option<real>, exitSlippage: Option<real>,
                                     totalSlippage: Option<real>, expectedCost: Option<real>)

  function ToTakerRecord(cost: Cost, entryFill: Option<ExpectedFill>, exitFill: Option<ExpectedFill>): TakerRecord {
    if cost.amounts.None? then TakerRecord(None, None, None, None, None)
    else
      var m := cost.amounts.value;
      var entrySlippage := FillSlippage(entryFill, AveragePrice(m.entryValue, m.entryQty), m.entryQty);
      var exitSlippage := FillSlippage(exitFill, AveragePrice(m.exitValue, m.exitQty), m.exitQty);
      var total := if entrySlippage.Some? && exitSlippage.Some? then Some(entrySlippage.value + exitSlippage.value) else None;
      var entryPrice, exitPrice := UsableExpectedPrice(entryFill), UsableExpectedPrice(exitFill);
      var expected :=
        if entryPrice.Some? && exitPrice.Some? then
          Some(ExpectedLegCost(entryFill, entryPrice.value, m.entryQty) + ExpectedLegCost(exitFill, exitPrice.value, m.exitQty)
               + m.entryFee + m.exitFee)
        else None;
      TakerRecord(if expected.Some? then Some(m.tradeCost - expected.value) else None, entrySlippage, exitSlippage, total, expected)
  }

  // The value that a leg moves, counted as cost when the expected fill is a buy and as income
  // when it is a sell.
  function SignedValue(fill: Option<ExpectedFill>, value: real): real {
    if SellSide(fill) then -value else value
  }

  lemma LegIdentity(fill: Option<ExpectedFill>, value: real, qty: real)
    requires qty > 0.0 && UsableExpectedPrice(fill).Some?
    ensures FillSlippage(fill, AveragePrice(value, qty), qty).Some?
    ensures FillSlippage(fill, AveragePrice(value, qty), qty).value + ExpectedLegCost(fill, UsableExpectedPrice(fill).value, qty)
            == SignedValue(fill, value)
  {
    var p, a := UsableExpectedPrice(fill).value, value / qty;
    assert a * qty == value;
    FillWalk.Distribute(p, a, qty);
    FillWalk.Distribute(a, p, qty);
  }

  ghost predicate AmountsOf(cost: Cost, entry: Aggregate, exit: Aggregate) {
    && cost.amounts.Some?
    && var m := cost.amounts.value;
       && m.entryQty == entry.buyQty + entry.sellQty && m.exitQty == exit.buyQty + exit.sellQty
       && m.entryValue == EntryValue(entry) && m.exitValue == EntryValue(exit)
       && m.tradeCost == PriceMove(entry, exit) + m.entryFee + m.exitFee
  }

  // When both slippages are defined the gap between actual and expected cost is defined, and it
  // exceeds them by the price move less the two legs' signed values.
  lemma GapExcess(cost: Cost, entry: Aggregate, exit: Aggregate, entryFill: Option<ExpectedFill>, exitFill: Option<ExpectedFill>)
    requires AmountsOf(cost, entry, exit)
    requires ToTakerRecord(cost, entryFill, exitFill).totalSlippage.Some?
    ensures var r := ToTakerRecord(cost, entryFill, exitFill);
            && r.gap.Some?
            && r.gap.value - r.totalSlippage.value
               == PriceMove(entry, exit) - SignedValue(entryFill, EntryValue(entry)) - SignedValue(exitFill, EntryValue(exit))
  {
    var m := cost.amounts.value;
    LegIdentity(entryFill, m.entryValue, m.entryQty);
    LegIdentity(exitFill, m.exitValue, m.exitQty);
  }

  // A buy entry: most of the entry is bought, and the expected fills are a buy and then a sell.
  predicate BuyTrip(entry: Aggregate, entryFill: Option<ExpectedFill>, exitFill: Option<ExpectedFill>) {
    entry.buyQty >= entry.sellQty && !SellSide(entryFill) && SellSide(exitFill)
  }

  predicate SellTrip(entry: Aggregate, entryFill: Option<ExpectedFill>, exitFill: Option<ExpectedFill>) {
    entry.buyQty < entry.sellQty && SellSide(entryFill) && !SellSide(exitFill)
  }

  // With expected sides that match the trip, the gap equals the two slippages if and only if the
  // fills against it, entry sells and exit buys of a buy trip, have the same value on both legs.
  lemma GapIsSlippageIff(cost: Cost, entry: Aggregate, exit: Aggregate, entryFill: Option<ExpectedFill>, exitFill: Option<ExpectedFill>)
    requires AmountsOf(cost, entry, exit)
    requires ToTakerRecord(cost, entryFill, exitFill).totalSlippage.Some?
    ensures var r := ToTakerRecord(cost, entryFill, exitFill);
            && r.gap.Some?
            && (BuyTrip(entry, entryFill, exitFill) ==> (r.gap == r.totalSlippage <==> entry.sellValue == exit.buyValue))
            && (SellTrip(entry, entryFill, exitFill) ==> (r.gap == r.totalSlippage <==> entry.buyValue == exit.sellValue))
  {
    GapExcess(cost, entry, exit, entryFill, exitFill);
  }

  // ------------------------------------------------------------------ from fills to slippage

  // Every counted fill is on the side.
  predicate AllOn(fills: seq<Fill>, side: FillSide) {
    forall i | 0 <= i < |fills| :: fills[i].side == side || fills[i].side == Uncounted
  }

  lemma {:induction false} NoneAgainst(fills: seq<Fill>)
    ensures AllOn(fills, BuyFill) ==> SumOf(fills, SellQty) == 0.0 && SumOf(fills, SellValue) == 0.0
    ensures AllOn(fills, SellFill) ==> SumOf(fills, BuyQty) == 0.0 && SumOf(fills, BuyValue) == 0.0
  {
    if fills != [] {
      NoneAgainst(fills[..|fills| - 1]);
    }
  }

  method Aggregated(fills: seq<Fill>) returns (r: Option<Aggregate>)
    ensures r == if AddFills(fills).count == 0 then None else Some(AddFills(fills))
  {
    var aggregate := new FillAggregate();
    for i := 0 to |fills|
      invariant aggregate.Valid() && aggregate.fills == fills[..i] && fresh(aggregate)
    {
      assert fills[..i + 1] == fills[..i] + [fills[i]];
      aggregate.AddSided(fills[i].side, fills[i].qty, fills[i].value, fills[i].fee, fills[i].timeMs);
    }
    assert fills[..|fills|] == fills;
    r := aggregate.Finish();
  }

  // The value of the fills that go against the trip: sells of the entry or buys of the exit when
  // the entry is bought, and the other way round.
  function Against(fills: seq<Fill>, bought: bool): real {
    if bought then SumOf(fills, SellValue) else SumOf(fills, BuyValue)
  }

  // Entry fills on one side only, exit fills on the other, and expected fills on the same sides.
  ghost predicate OneSided(entry: Aggregate, exit: Aggregate, entryFill: Option<ExpectedFill>, exitFill: Option<ExpectedFill>) {
    || (entry.sellQty == entry.sellValue == exit.buyQty == exit.buyValue == 0.0 && !SellSide(entryFill) && SellSide(exitFill))
    || (entry.buyQty == entry.buyValue == exit.sellQty == exit.sellValue == 0.0 && SellSide(entryFill) && !SellSide(exitFill))
  }

  lemma GapIsSlippage(cost: Cost, entry: Aggregate, exit: Aggregate, entryFill: Option<ExpectedFill>, exitFill: Option<ExpectedFill>)
    requires AmountsOf(cost, entry, exit) && OneSided(entry, exit, entryFill, exitFill)
    requires ToTakerRecord(cost, entryFill, exitFill).totalSlippage.Some?
    ensures var r := ToTakerRecord(cost, entryFill, exitFill);
            && r.gap.Some? && r.gap.value == r.entrySlippage.value + r.exitSlippage.value
  {
    GapIsSlippageIff(cost, entry, exit, entryFill, exitFill);
  }

  // A round trip through both programs, from its fills: the record has a cost gap equal to its
  // slippage exactly when the fills against the trip have the same value on both legs.
  method RoundTrip(entryFills: seq<Fill>, exitFills: seq<Fill>, before: real, after: real, expectedEntryQty: real, expectedExitQty: real,
                   tolerance: real, entryFill: Option<ExpectedFill>, exitFill: Option<ExpectedFill>)
    returns (cost: Cost, record: TakerRecord)
    ensures record == ToTakerRecord(cost, entryFill, exitFill)
    ensures cost.amounts.Some? <==> AddFills(entryFills).count > 0 && AddFills(exitFills).count > 0
    ensures cost.amounts.Some? ==> AmountsOf(cost, AddFills(entryFills), AddFills(exitFills))
    ensures record.totalSlippage.Some? ==> record.gap.Some?
    ensures record.totalSlippage.Some? ==>
              var bought := SumOf(entryFills, BuyQty) >= SumOf(entryFills, SellQty);
              SellSide(entryFill) == !bought && SellSide(exitFill) == bought ==>
                (record.gap == record.totalSlippage <==> Against(entryFills, bought) == Against(exitFills, !bought))
  {
    var entry := Aggregated(entryFills);
    var exit := Aggregated(exitFills);
    cost := BuildRoundTripCost(before, after, entry, exit, expectedEntryQty, expectedExitQty, tolerance);
    record := ToTakerRecord(cost, entryFill, exitFill);
    if record.totalSlippage.Some? {
      AggregateTotals(entryFills);
      AggregateTotals(exitFills);
      GapIsSlippageIff(cost, entry.value, exit.value, entryFill, exitFill);
    }
  }

  // For entry fills on one side, exit fills on the other and expected fills on the same sides, the
  // gap between actual and expected cost is entry slippage plus exit slippage, bought or sold.
  method OneSidedTrip(entryFills: seq<Fill>, exitFills: seq<Fill>, before: real, after: real, expectedEntryQty: real, expectedExitQty: real,
                      tolerance: real, entryFill: Option<ExpectedFill>, exitFill: Option<ExpectedFill>)
    returns (cost: Cost, record: TakerRecord)
    requires || (AllOn(entryFills, BuyFill) && AllOn(exitFills, SellFill) && !SellSide(entryFill) && SellSide(exitFill))
             || (AllOn(entryFills, SellFill) && AllOn(exitFills, BuyFill) && SellSide(entryFill) && !SellSide(exitFill))
    ensures record == ToTakerRecord(cost, entryFill, exitFill)
    ensures cost.amounts.Some? <==> AddFills(entryFills).count > 0 && AddFills(exitFills).count > 0
    ensures cost.amounts.Some? ==> AmountsOf(cost, AddFills(entryFills), AddFills(exitFills))
    ensures record.totalSlippage.Some? ==> record.gap == Some(record.entrySlippage.value + record.exitSlippage.value)
  {
    cost, record := RoundTrip(entryFills, exitFills, before, after, expectedEntryQty, expectedExitQty, tolerance, entryFill, exitFill);
    NoneAgainst(entryFills);
    NoneAgainst(exitFills);
    AggregateTotals(entryFills);
  }

  lemma TwoFills(f: Fill, g: Fill)
    ensures AddFills([f]) == AddFill(NEW_AGGREGATE, f) && AddFills([f, g]) == AddFill(AddFill(NEW_AGGREGATE, f), g)
    ensures forall term :: SumOf([f], term) == term(f) && SumOf([f, g], term) == term(f) + term(g)
  {
    assert [f][..0] == [] && [f, g][..1] == [f];
  }

  // A trip with a buy and a sell on entry and only a sell on exit, whose expected fills are a buy
  // and a sell: however well each leg filled, the gap is not the slippage.
  method MixedTripDiffers(bought: Fill, sold: Fill, exit: Fill, entryFill: ExpectedFill, exitFill: ExpectedFill)
    returns (cost: Cost, record: TakerRecord)
    requires bought.side == BuyFill && sold.side == exit.side == SellFill
    requires bought.qty >= sold.qty > 0.0 && exit.qty > 0.0 && sold.value != 0.0
    requires UsableExpectedPrice(Some(entryFill)).Some? && UsableExpectedPrice(Some(exitFill)).Some?
    requires !SellSide(Some(entryFill)) && SellSide(Some(exitFill))
    ensures AmountsOf(cost, AddFills([bought, sold]), AddFills([exit])) && record == ToTakerRecord(cost, Some(entryFill), Some(exitFill))
    ensures record.totalSlippage.Some? && record.gap.Some? && record.gap != record.totalSlippage
  {
    cost, record := RoundTrip([bought, sold], [exit], 0.0, 0.0, 0.0, 0.0, 0.0, Some(entryFill), Some(exitFill));
    TwoFills(bought, sold);
    TwoFills(exit, exit);
  }

  // The sides recorded with the entry and exit expectations of one order are opposite exactly
  // when the order side is a buy or a sell in any letter case.
  lemma RecordedSidesOpposite(orderSide: string, entryFill: ExpectedFill, exitFill: ExpectedFill)
    requires entryFill.side == Some(FillWalk.FillSide(orderSide, "entry"))
    requires exitFill.side == Some(FillWalk.FillSide(orderSide, "exit"))
    ensures SellSide(Some(entryFill)) != SellSide(Some(exitFill)) <==> EqualFold(orderSide, "buy") || EqualFold(orderSide, "sell")
  {
    LowerWord("buy");
    LowerWord("sell");
    assert "entry"[1] != "exit"[1];
    assert |"buy"| != |"sell"|;
  }

  lemma LowerWord(w: string)
    requires forall i | 0 <= i < |w| :: !('A' <= w[i] <= 'Z')
    ensures Lower(w) == w
  {
  }
}
