/**
 The live accountant. Written independently of the simulator: it keeps an average entry price,
 running costs, realised profit, a loss streak and the equity peak, and it never refuses a fill.
 */
module Ledgers {
  import opened Market

  const DAY_MS: int := 86_400_000

  datatype Ledger = Ledger(initial: real, cash: real, units: real, avgEntry: real, peak: real,
                           fees: real, gas: real, realizedTotal: real, losses: nat,
                           day: int, dayStart: real) {
    function Equity(price: real): real { cash + Worth(units, price) }

    function Exposure(price: real): real { Worth(units, price) }

    function DailyLoss(price: real): real { Max(dayStart - Equity(price), 0.0) }
  }

  function Open(initial: real): Ledger {
    Ledger(initial, initial, 0.0, 0.0, initial, 0.0, 0.0, 0.0, 0, -1, initial)
  }

  function Mark(l: Ledger, price: real): Ledger {
    if l.Equity(price) > l.peak then l.(peak := l.Equity(price)) else l
  }

  function RollDay(l: Ledger, timestamp: int, price: real): Ledger {
    if timestamp / DAY_MS != l.day then l.(day := timestamp / DAY_MS, dayStart := l.Equity(price)) else l
  }

  /** Average entry after buying `units` at `price`. */
  function Blend(l: Ledger, units: real, price: real): real {
    if l.units <= 0.0 then price
    else if units > 0.0 then Average(l.avgEntry, l.units, price, units)
    else l.avgEntry
  }

  function Average(price: real, units: real, price': real, units': real): real
    requires units + units' > 0.0
  {
    (price * units + price' * units') / (units + units')
  }

  function UnitsSold(l: Ledger, f: Fill): real { Min(UnitsAt(f.order.sizeUsd, f.price), l.units) }

  /** Realised profit of a fill: zero on a buy. */
  function Realized(l: Ledger, f: Fill): real {
    if f.order.side.Buy? then 0.0
    else Worth(UnitsSold(l, f), f.price - l.avgEntry) - f.costs.Total()
  }

  function Apply(l: Ledger, f: Fill): Ledger {
    var charged := l.(fees := l.fees + f.costs.fee, gas := l.gas + f.costs.gas);
    if f.order.side.Buy? then
      var units := UnitsAt(f.order.sizeUsd, f.price);
      charged.(avgEntry := Blend(l, units, f.price), units := l.units + units,
               cash := l.cash - (f.order.sizeUsd + f.costs.Total()))
    else
      var realized := Realized(l, f);
      charged.(cash := l.cash + (f.order.sizeUsd - f.costs.Total()),
               units := Max(l.units - UnitsSold(l, f), 0.0),
               realizedTotal := l.realizedTotal + realized,
               losses := if realized < 0.0 then l.losses + 1 else 0)
  }

  function ApplyAll(l: Ledger, fills: seq<Fill>): Ledger {
    if fills == [] then l else Apply(ApplyAll(l, fills[..|fills| - 1]), fills[|fills| - 1])
  }

  class LedgerState {
    const initialCapital: real
    var cash: real
    var units: real
    var avgEntry: real
    var peakEquity: real
    var cumulativeFees: real
    var cumulativeGas: real
    var realizedPnlTotal: real
    var consecutiveLosses: nat
    var currentDay: int
    var dayStartEquity: real

    constructor (initial: real)
      ensures View() == Open(initial) && initialCapital == initial
    {
      initialCapital := initial;
      cash, units, avgEntry, peakEquity := initial, 0.0, 0.0, initial;
      cumulativeFees, cumulativeGas, realizedPnlTotal, consecutiveLosses := 0.0, 0.0, 0.0, 0;
      currentDay, dayStartEquity := -1, initial;
    }

    function View(): Ledger
      reads this
    {
      Ledger(initialCapital, cash, units, avgEntry, peakEquity, cumulativeFees, cumulativeGas,
             realizedPnlTotal, consecutiveLosses, currentDay, dayStartEquity)
    }

    method MarkAt(price: real) returns (equity: real)
      modifies this
      ensures View() == Mark(old(View()), price) && equity == View().Equity(price)
    {
      equity := cash + Worth(units, price);
      if equity > peakEquity {
        peakEquity := equity;
      }
    }

    method Roll(timestamp: int, price: real)
      modifies this
      ensures View() == RollDay(old(View()), timestamp, price)
    {
      var day := timestamp / DAY_MS;
      if day != currentDay {
        currentDay := day;
        dayStartEquity := cash + Worth(units, price);
      }
    }

    method ApplyFill(f: Fill) returns (realized: real)
      modifies this
      ensures View() == Apply(old(View()), f) && realized == Realized(old(View()), f)
    {
      var cost := f.costs.Total();
      cumulativeFees := cumulativeFees + f.costs.fee;
      cumulativeGas := cumulativeGas + f.costs.gas;
      realized := 0.0;
      if f.order.side.Buy? {
        var bought := UnitsAt(f.order.sizeUsd, f.price);
        if units <= 0.0 {
          avgEntry := f.price;
        } else if bought > 0.0 {
          avgEntry := Average(avgEntry, units, f.price, bought);
        }
        units := units + bought;
        cash := cash - (f.order.sizeUsd + cost);
      } else {
        var sold := Min(UnitsAt(f.order.sizeUsd, f.price), units);
        realized := Worth(sold, f.price - avgEntry) - cost;
        cash := cash + (f.order.sizeUsd - cost);
        units := Max(units - sold, 0.0);
        realizedPnlTotal := realizedPnlTotal + realized;
        if realized < 0.0 {
          consecutiveLosses := consecutiveLosses + 1;
        } else {
          consecutiveLosses := 0;
        }
      }
    }
  }

  // ---- conservation ----

  function BuyCost(f: Fill): real { if f.order.side.Buy? then f.costs.Total() else 0.0 }

  /** Cash a sell credits beyond the value of the units it removes. */
  function Minted(l: Ledger, f: Fill): real {
    if f.order.side.Sell? then Max(0.0, f.order.sizeUsd - Worth(l.units, f.price)) else 0.0
  }

  function TotalBuyCost(fills: seq<Fill>): real {
    if fills == [] then 0.0 else TotalBuyCost(fills[..|fills| - 1]) + BuyCost(fills[|fills| - 1])
  }

  function TotalMinted(l: Ledger, fills: seq<Fill>): real {
    if fills == [] then 0.0
    else
      var init := fills[..|fills| - 1];
      TotalMinted(l, init) + Minted(ApplyAll(l, init), fills[|fills| - 1])
  }

  /** Cash plus the position at its average entry. */
  function BookValue(l: Ledger): real { l.cash + Worth(l.units, l.avgEntry) }

  lemma BlendKeepsCost(l: Ledger, units: real, price: real)
    requires l.units >= 0.0 && units >= 0.0
    ensures Worth(l.units + units, Blend(l, units, price)) == Worth(l.units, l.avgEntry) + Worth(units, price)
  {
    if l.units > 0.0 && units > 0.0 {
      var total := l.units + units;
      assert Blend(l, units, price) == (l.avgEntry * l.units + price * units) / total;
      assert total * ((l.avgEntry * l.units + price * units) / total) == l.avgEntry * l.units + price * units;
    } else if l.units == 0.0 {
      assert Worth(l.units, l.avgEntry) == 0.0;
    } else {
      assert units == 0.0;
    }
  }

  ghost predicate Conserves(l: Ledger, m: Ledger, f: Fill) {
    && m.units >= 0.0
    && BookValue(m) - m.realizedTotal == BookValue(l) - l.realizedTotal - BuyCost(f) + Minted(l, f)
  }

  lemma BuyConserves(l: Ledger, f: Fill)
    requires f.order.side.Buy? && l.units >= 0.0 && UnitsAt(f.order.sizeUsd, f.price) >= 0.0 && f.price > 0.0
    ensures Conserves(l, Apply(l, f), f)
  {
    var u := UnitsAt(f.order.sizeUsd, f.price);
    UnitsTimesPrice(f.order.sizeUsd, f.price);
    BlendKeepsCost(l, u, f.price);
  }

  lemma SellConserves(l: Ledger, f: Fill)
    requires f.order.side.Sell? && l.units >= 0.0 && f.price > 0.0
    ensures Conserves(l, Apply(l, f), f)
  {
    UnitsOrder(f.order.sizeUsd, l.units, f.price);
    UnitsTimesPrice(f.order.sizeUsd, f.price);
    SaleSplits(l.units, UnitsSold(l, f), f.price, l.avgEntry);
  }

  lemma ApplyConserves(l: Ledger, f: Fill)
    requires l.units >= 0.0 && f.price > 0.0 && f.order.sizeUsd >= 0.0
    ensures Conserves(l, Apply(l, f), f)
  {
    UnitsOrder(f.order.sizeUsd, l.units, f.price);
    if f.order.side.Buy? {
      BuyConserves(l, f);
    } else {
      SellConserves(l, f);
    }
  }

  lemma SaleSplits(units: real, sold: real, price: real, avg: real)
    ensures Worth(units - sold, avg) == Worth(units, avg) + Worth(sold, price - avg) - Worth(sold, price)
  {
  }

  /**
   Conservation for every sequence of fills at positive prices: cash plus the position at cost is
   the starting capital, plus realised profit, less buy costs, plus whatever oversized sells minted.
   */
  lemma {:induction false} LedgerConservation(initial: real, fills: seq<Fill>)
    requires forall f | f in fills :: f.price > 0.0 && f.order.sizeUsd >= 0.0
    ensures var l := ApplyAll(Open(initial), fills);
            && l.units >= 0.0
            && BookValue(l) == initial + l.realizedTotal - TotalBuyCost(fills) + TotalMinted(Open(initial), fills)
  {
    if fills == [] {
    } else {
      var init := fills[..|fills| - 1];
      LedgerConservation(initial, init);
      ApplyConserves(ApplyAll(Open(initial), init), fills[|fills| - 1]);
    }
  }

  /** The live ledger does not clamp proceeds: a sell against nothing is credited in full. */
  lemma FlatSellMintsItsSize(l: Ledger, f: Fill)
    requires l.units == 0.0 && f.order.side.Sell? && f.price > 0.0 && f.order.sizeUsd > 0.0
    ensures var m := Apply(l, f);
            && m.cash == l.cash + f.order.sizeUsd - f.costs.Total()
            && m.units == 0.0
            && m.realizedTotal == l.realizedTotal - f.costs.Total()
            && Minted(l, f) == f.order.sizeUsd
  {
    UnitsOrder(f.order.sizeUsd, 0.0, f.price);
    assert UnitsSold(l, f) == 0.0;
  }

  /** Marking raises the peak to the highest equity seen and touches nothing else. */
  lemma MarkRaisesPeak(l: Ledger, price: real)
    ensures Mark(l, price) == l.(peak := Max(l.peak, l.Equity(price)))
  {
  }

  lemma {:induction false} ApplyAllConcat(l: Ledger, a: seq<Fill>, b: seq<Fill>)
    ensures ApplyAll(l, a + b) == ApplyAll(ApplyAll(l, a), b)
  {
    if b == [] {
      assert a + b == a;
    } else {
      assert (a + b)[..|a + b| - 1] == a + b[..|b| - 1];
      ApplyAllConcat(l, a, b[..|b| - 1]);
    }
  }
}
