/**
 The profit booked on a round trip. Simulator and loop pair the same fills, but they do not book the same number:
 the simulator charges the entry's costs to the round trip and measures from the first entry price, the loop books
 the ledger's realised figure.
 */
module Profits {
  import opened Market
  import opened Engine
  import opened EngineLaws
  import opened Ledgers
  import opened Loops
  import opened Recovery
  import opened Parity

  /** The loop's profit less the simulator's, for a sale out of the account `l`. */
  function ProfitGap(entry: Fill, exit: Fill, l: Ledger): real {
    var units, sold := UnitsAt(exit.order.sizeUsd, exit.price), UnitsSold(l, exit);
    entry.costs.Total() + Worth(sold, entry.price - l.avgEntry) - Worth(units - sold, exit.price - entry.price)
  }

  lemma RoundTripProfitsDiffer(entry: Fill, exit: Fill, l: Ledger)
    requires exit.order.side.Sell?
    ensures Realized(l, exit) - RoundTrip(entry, exit, UnitsAt(exit.order.sizeUsd, exit.price)).pnl
         == ProfitGap(entry, exit, l)
  {
    var units, sold := UnitsAt(exit.order.sizeUsd, exit.price), UnitsSold(l, exit);
    assert (exit.price - entry.price) * units
        == Worth(sold, exit.price - entry.price) + Worth(units - sold, exit.price - entry.price);
    assert Worth(sold, exit.price - l.avgEntry)
        == Worth(sold, exit.price - entry.price) + Worth(sold, entry.price - l.avgEntry);
  }

  /** For a position built by one buy and sold within it, they agree exactly when the entry was free. */
  lemma SingleRoundTripAgreesIffEntryFree(entry: Fill, exit: Fill, l: Ledger)
    requires exit.order.side.Sell? && l.avgEntry == entry.price
    requires UnitsAt(exit.order.sizeUsd, exit.price) <= l.units
    ensures Realized(l, exit) == RoundTrip(entry, exit, UnitsAt(exit.order.sizeUsd, exit.price)).pnl
            <==> entry.costs.Total() == 0.0
  {
    RoundTripProfitsDiffer(entry, exit, l);
  }

  // ---- over whole runs ----

  /** The k-th fill closed the round trip, and the two profits differ by the gap on the account before it. */
  ghost predicate DifferAt(live: Trade, sim: Trade, fills: seq<Fill>, initial: real, k: nat) {
    && k < |fills| && fills[k] == live.exit
    && live.pnl - sim.pnl == ProfitGap(live.entry, live.exit, ApplyAll(Open(initial), fills[..k]))
  }

  ghost predicate Differ(live: Trade, sim: Trade, fills: seq<Fill>, initial: real) {
    exists k: nat :: DifferAt(live, sim, fills, initial, k)
  }

  ghost predicate AllDiffer(live: seq<Trade>, sim: seq<Trade>, fills: seq<Fill>, initial: real) {
    |live| == |sim| && forall i | 0 <= i < |live| :: Differ(live[i], sim[i], fills, initial)
  }

  lemma DifferStill(live: Trade, sim: Trade, fills: seq<Fill>, initial: real, f: Fill)
    requires Differ(live, sim, fills, initial)
    ensures Differ(live, sim, fills + [f], initial)
  {
    var k: nat :| DifferAt(live, sim, fills, initial, k);
    assert (fills + [f])[..k] == fills[..k];
    assert DifferAt(live, sim, fills + [f], initial, k);
  }

  lemma GapIgnoresMarks(entry: Fill, exit: Fill, l: Ledger, m: Ledger)
    requires Accounts(l) == Accounts(m)
    ensures ProfitGap(entry, exit, l) == ProfitGap(entry, exit, m)
  {
    assert UnitsSold(l, exit) == UnitsSold(m, exit) && l.avgEntry == m.avgEntry;
  }

  /** The round trip a sale closes, in both books. */
  lemma NewTradeDiffers(entry: Fill, f: Fill, l: Ledger, fills: seq<Fill>, initial: real)
    requires f.order.side.Sell? && Accounts(l) == Accounts(ApplyAll(Open(initial), fills))
    ensures Differ(Trade(entry, f, Realized(l, f)), RoundTrip(entry, f, UnitsAt(f.order.sizeUsd, f.price)),
                   fills + [f], initial)
  {
    RoundTripProfitsDiffer(entry, f, l);
    GapIgnoresMarks(entry, f, l, ApplyAll(Open(initial), fills));
    assert (fills + [f])[..|fills|] == fills;
    assert DifferAt(Trade(entry, f, Realized(l, f)), RoundTrip(entry, f, UnitsAt(f.order.sizeUsd, f.price)),
                    fills + [f], initial, |fills|);
  }

  /** One fill on both sides, with the same entry open. */
  lemma FillKeepsDiffering(live: seq<Trade>, sim: seq<Trade>, fills: seq<Fill>, initial: real, account: Account,
                           l: Ledger, f: Fill)
    requires AllDiffer(live, sim, fills, initial) && Accounts(l) == Accounts(ApplyAll(Open(initial), fills))
    ensures AllDiffer(live + LiveTrade(account.entry, l, f), sim + Closed(account, f, f.order.sizeUsd), fills + [f],
                      initial)
  {
    forall i | 0 <= i < |live|
      ensures Differ(live[i], sim[i], fills + [f], initial)
    {
      DifferStill(live[i], sim[i], fills, initial, f);
    }
    if f.order.side.Sell? && account.entry.Some? {
      NewTradeDiffers(account.entry.value, f, l, fills, initial);
    }
  }

  /** An order filled as asked closes the round trip of that very fill. */
  lemma AskedClosed(account: Account, record: Record, order: Order, price: real, costs: Costs)
    requires ApplyOrder(account, record, order, price, costs).record.fills == record.fills + [Fill(order, price, costs)]
    ensures ApplyOrder(account, record, order, price, costs).record.trades
         == record.trades + Closed(account, Fill(order, price, costs), order.sizeUsd)
  {
    FillIsExecuted(account, record, Quote(order, price, costs));
    var a := ApplyOrder(account, record, order, price, costs);
    if a.executed > TOLERANCE {
      assert a.record.fills[|record.fills|] == Fill(order, price, costs);
      assert order == order.(sizeUsd := a.executed);
    }
  }

  predicate Closes(before: Sim, after: Sim, f: Fill) {
    after.record.trades == before.record.trades + Closed(before.account, f, f.order.sizeUsd)
  }

  /** One more bar of a feasible run, in the simulator. */
  lemma SimStep(bars: seq<Bar>, setup: Setup, before: Sim, after: Sim)
    requires bars != [] && !setup.delayed && Feasible(bars, setup)
    requires before == Run(bars[..|bars| - 1], setup) && after == Run(bars, setup)
    ensures var order, bar := setup.strategy(bars), bars[|bars| - 1];
            if order.None? then after.record.trades == before.record.trades
            else Closes(before, after, PaperFill(order.value, bar, setup.cost))
  {
    FeasibleStep(bars, setup);
    PendingOnlyWhenDelayed(bars[..|bars| - 1], setup);
    BarApplies(before, bars, setup);
    if setup.strategy(bars).Some? {
      SimFill(before, after, setup.strategy(bars).value, bars[|bars| - 1], setup.cost);
    }
  }

  /** What an immediate bar does to the record but for its curve. */
  lemma BarApplies(s: Sim, bars: seq<Bar>, setup: Setup)
    requires bars != [] && !setup.delayed && s.pending.None?
    ensures var t, order, bar := BarStep(s, bars, setup).record, setup.strategy(bars), bars[|bars| - 1];
            if order.None? then t == s.record.(curve := t.curve)
            else Applies(s, t, PaperFill(order.value, bar, setup.cost))
  {
  }

  /** The order of this fill was applied to the record. */
  predicate Applies(s: Sim, t: Record, f: Fill) {
    t == ApplyOrder(s.account, s.record, f.order, f.price, f.costs).record.(curve := t.curve)
  }

  lemma SimFill(s: Sim, t: Sim, order: Order, bar: Bar, cost: CostModel)
    requires Applies(s, t.record, PaperFill(order, bar, cost))
    requires Refusals(t.record) == Refusals(s.record) && order.sizeUsd > TOLERANCE
    ensures Closes(s, t, PaperFill(order, bar, cost))
  {
    var f := PaperFill(order, bar, cost);
    OrderFillsAsAsked(s.account, s.record, order, bar, cost);
    AskedClosed(s.account, s.record, order, f.price, f.costs);
  }

  lemma StepKeepsDiffering(bars: seq<Bar>, setup: Setup, cfg: Config, s: Loop, t: Loop)
    requires bars != [] && !setup.delayed && Feasible(bars, setup)
    requires LiveLaw(bars[..|bars| - 1], setup, s) && SameRun(Run(bars[..|bars| - 1], setup), s)
    requires QuietEffect(s, t, cfg, setup.strategy(bars), bars[|bars| - 1], setup.cost)
    requires AllDiffer(s.trades, Run(bars[..|bars| - 1], setup).record.trades, s.fills, setup.initial)
    ensures AllDiffer(t.trades, Run(bars, setup).record.trades, t.fills, setup.initial)
  {
    var order, before := setup.strategy(bars), Run(bars[..|bars| - 1], setup);
    SimStep(bars, setup, before, Run(bars, setup));
    if order.Some? {
      FillKeepsDiffering(s.trades, before.record.trades, s.fills, setup.initial, before.account, s.ledger,
                         PaperFill(order.value, bars[|bars| - 1], setup.cost));
    }
  }

  /**
   Over every feasible run the two drivers close the same round trips, and each pair of profits differs by the gap
   on the account as it stood before the closing fill.
   */
  lemma {:induction false} RunProfitsDiffer(bars: seq<Bar>, setup: Setup, cfg: Config, env: nat -> Inputs)
    requires QuietRun(bars, setup, cfg, env) && Feasible(bars, setup)
    ensures var sim, live := Run(bars, setup), LiveRun(bars, setup, cfg, env);
            SamePairs(live.trades, sim.record.trades)
            && AllDiffer(live.trades, sim.record.trades, live.fills, setup.initial)
  {
    FeasibleRunAgrees(bars, setup, cfg, env);
    if bars != [] {
      var init := bars[..|bars| - 1];
      assert forall i | 0 <= i < |init| :: init[i] == bars[i];
      FeasibleStep(bars, setup);
      RunProfitsDiffer(init, setup, cfg, env);
      FeasibleRunAgrees(init, setup, cfg, env);
      LiveRunFillsAsAsked(init, setup, cfg, env);
      LiveStep(bars, setup, cfg, env);
      StepKeepsDiffering(bars, setup, cfg, LiveRun(init, setup, cfg, env), LiveRun(bars, setup, cfg, env));
    }
  }

  // ---- a run whose profits differ ----

  /** Buy a hundred dollars' worth on the first bar, sell fifty on the second, a dollar's fee each time. */
  function BuyAndSell(): Setup {
    Setup((history: seq<Bar>) => if |history| == 1 then Some(Order(Buy, 100.0, "ETH", 0))
                                 else if |history| == 2 then Some(Order(Sell, 50.0, "ETH", HOUR_MS)) else None,
          (order: Order, bar: Bar) => Costs(1.0, 0.0, 0.0), 1_000.0, false)
  }

  function TwoBars(): seq<Bar> { [FlatBar(0, 100.0), FlatBar(HOUR_MS, 100.0)] }

  function Bought(): Fill { Fill(Order(Buy, 100.0, "ETH", 0), 100.0, Costs(1.0, 0.0, 0.0)) }

  function Sold(): Fill { Fill(Order(Sell, 50.0, "ETH", HOUR_MS), 100.0, Costs(1.0, 0.0, 0.0)) }

  lemma BothAsked()
    ensures PaperFill(Bought().order, FlatBar(0, 100.0), BuyAndSell().cost) == Bought()
    ensures PaperFill(Sold().order, FlatBar(HOUR_MS, 100.0), BuyAndSell().cost) == Sold()
  {
  }

  ghost predicate BoughtOnly(r: Record) {
    r.fills == [Bought()] && r.trades == [] && r.oversizedSells == 0 && r.underfundedBuys == 0
  }

  lemma FirstBar(bars: seq<Bar>, setup: Setup)
    requires bars == [FlatBar(0, 100.0)] && setup == BuyAndSell()
    ensures var sim := Run(bars, setup);
            && sim.account == Account(899.0, 1.0, Some(Bought())) && sim.pending.None?
            && BoughtOnly(sim.record)
  {
    assert bars[..0] == [];
    BothAsked();
  }

  lemma HalfAUnit()
    ensures UnitsAt(50.0, 100.0) == 0.5 && Worth(1.0, 100.0) == 100.0
  {
  }

  lemma HalfFits()
    ensures SizeOrder(Sold().order, 100.0, Account(899.0, 1.0, Some(Bought())), 0.0) == Sizing(false, 0.0, 50.0)
  {
    HalfAUnit();
  }

  lemma SoldAsAsked()
    ensures FillFor(Sold().order, 100.0, 50.0, Costs(1.0, 0.0, 0.0)) == Sold()
  {
  }

  /** Half the position, sold at the price it was bought at. */
  lemma HalfSold(account: Account, record: Record)
    requires account == Account(899.0, 1.0, Some(Bought()))
    ensures var a := ApplyOrder(account, record, Sold().order, Sold().price, Sold().costs);
            && a.record == record.(fills := record.fills + [Sold()],
                                   trades := record.trades + [RoundTrip(Bought(), Sold(), 0.5)])
  {
    HalfAUnit();
    HalfFits();
    SoldAsAsked();
    assert Closed(account, Sold(), 50.0) == [RoundTrip(Bought(), Sold(), 0.5)];
  }

  lemma SaleAttempted(s: Sim)
    ensures Attempt(s, TwoBars(), BuyAndSell()) == Some(Quote(Sold().order, Sold().price, Sold().costs))
  {
    BothAsked();
  }

  /** The second bar adds the sale and its round trip, and refuses nothing. */
  ghost predicate SaleAdded(s: Record, t: Record) {
    && t.fills == s.fills + [Sold()] && t.trades == s.trades + [RoundTrip(Bought(), Sold(), 0.5)]
    && t.oversizedSells == s.oversizedSells && t.underfundedBuys == s.underfundedBuys
  }

  lemma SaleExecuted(s: Sim, t: Sim)
    requires s.account == Account(899.0, 1.0, Some(Bought())) && s.pending.None?
    requires t == BarStep(s, TwoBars(), BuyAndSell())
    ensures SaleAdded(s.record, t.record)
  {
    SaleAttempted(s);
    HalfSold(s.account, s.record);
    BarStepExecutesOneAttempt(s, TwoBars(), BuyAndSell());
  }

  /** What the simulator records of the two bars. */
  ghost predicate SoldHalf(r: Record) {
    && r.fills == [Bought(), Sold()] && r.trades == [RoundTrip(Bought(), Sold(), 0.5)]
    && r.oversizedSells == 0 && r.underfundedBuys == 0
  }

  lemma BothRecorded(s: Record, t: Record)
    requires BoughtOnly(s) && SaleAdded(s, t)
    ensures SoldHalf(t)
  {
  }

  lemma TwoBarsSellHalf(bars: seq<Bar>, setup: Setup)
    requires bars == TwoBars() && setup == BuyAndSell()
    ensures SoldHalf(Run(bars, setup).record)
  {
    var init := bars[..|bars| - 1];
    assert SaleAdded(Run(init, setup).record, Run(bars, setup).record) by {
      FirstBar(init, setup);
      SaleExecuted(Run(init, setup), Run(bars, setup));
    }
    assert BoughtOnly(Run(init, setup).record) by {
      FirstBar(init, setup);
    }
    BothRecorded(Run(init, setup).record, Run(bars, setup).record);
  }

  function SellerConfig(): Config { Config("ETH", BuyAndSell().strategy, false, false, 0, 0.0) }

  function SellerEnv(): nat -> Inputs {
    (i: nat) => QuietInputs(FlatBar(if i == 0 then 0 else HOUR_MS, 100.0), BuyAndSell().cost)
  }

  lemma BuyAndSellIsFeasible()
    ensures Feasible(TwoBars(), BuyAndSell()) && QuietRun(TwoBars(), BuyAndSell(), SellerConfig(), SellerEnv())
  {
    TwoBarsSellHalf(TwoBars(), BuyAndSell());
    forall k | 1 <= k <= |TwoBars()|
      ensures Sizable(BuyAndSell().strategy(TwoBars()[..k]))
    {
      assert |TwoBars()[..k]| == k;
    }
    forall i: nat | i < |TwoBars()|
      ensures Quiet(SellerEnv()(i), TwoBars()[i], BuyAndSell().cost)
    {
      QuietInputsAreQuiet(TwoBars()[i], BuyAndSell().cost);
    }
  }

  lemma OneUnitBought(l: Ledger)
    requires l == Apply(Open(1_000.0), Bought())
    ensures l.units == 1.0 && l.avgEntry == 100.0
  {
    assert UnitsAt(100.0, 100.0) == 1.0;
  }

  /** The gap is the dollar the entry cost. */
  lemma GapIsTheEntryFee(l: Ledger)
    requires l.units == 1.0 && l.avgEntry == 100.0
    ensures ProfitGap(Bought(), Sold(), l) == 1.0
  {
    HalfAUnit();
    SaleWithinAtEntry(Bought(), Sold(), l);
  }

  /** A sale of what is held, bought at the average entry: only the entry's costs are left between the two profits. */
  lemma SaleWithinAtEntry(entry: Fill, exit: Fill, l: Ledger)
    requires UnitsAt(exit.order.sizeUsd, exit.price) <= l.units && entry.price == l.avgEntry
    ensures ProfitGap(entry, exit, l) == entry.costs.Total()
  {
    var sold := UnitsSold(l, exit);
    WorthOfNothing(sold);
    WorthOfNothing(exit.price - entry.price);
  }

  lemma WorthOfNothing(x: real)
    ensures Worth(x, 0.0) == 0.0 && Worth(0.0, x) == 0.0
  {
  }

  lemma ReplayedOnce(initial: real, fills: seq<Fill>, f: Fill)
    requires fills == [f]
    ensures ApplyAll(Open(initial), fills) == Apply(Open(initial), f)
  {
    assert fills[..0] == [];
  }

  lemma OneTradeDiffers(live: Trade, sim: Trade, fills: seq<Fill>, initial: real)
    requires fills == [Bought(), Sold()] && initial == 1_000.0 && live.entry == Bought() && live.exit == Sold()
    requires Differ(live, sim, fills, initial)
    ensures live.pnl == sim.pnl + 1.0
  {
    var k: nat :| DifferAt(live, sim, fills, initial, k);
    assert k == 1;
    ReplayedOnce(initial, fills[..1], Bought());
    var l := ApplyAll(Open(initial), fills[..1]);
    OneUnitBought(l);
    GapIsTheEntryFee(l);
  }

  /** Buy a hundred, sell fifty at the same price, a dollar's fee each: the loop books a dollar more. */
  lemma AnEntryFeeMakesThemDiffer()
    ensures var sim := Run(TwoBars(), BuyAndSell());
            var live := LiveRun(TwoBars(), BuyAndSell(), SellerConfig(), SellerEnv());
            |live.trades| == |sim.record.trades| == 1 && live.trades[0].pnl == sim.record.trades[0].pnl + 1.0
  {
    var live := LiveRun(TwoBars(), BuyAndSell(), SellerConfig(), SellerEnv());
    TwoBarsSellHalf(TwoBars(), BuyAndSell());
    BuyAndSellIsFeasible();
    FeasibleRunAgrees(TwoBars(), BuyAndSell(), SellerConfig(), SellerEnv());
    RunProfitsDiffer(TwoBars(), BuyAndSell(), SellerConfig(), SellerEnv());
    OneTradeDiffers(live.trades[0], Run(TwoBars(), BuyAndSell()).record.trades[0], live.fills, 1_000.0);
  }
}
