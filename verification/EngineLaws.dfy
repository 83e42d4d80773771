/**
 What the simulator's books satisfy over every run: no look-ahead, the clamp bounds, and the
 attribution of final equity to costs, holding and execution.
 */
module EngineLaws {
  import opened Market
  import opened Engine

  datatype Quote = Quote(order: Order, price: real, costs: Costs)

  /** The one order a bar can execute: the pending one at its open, or the strategy's at its close. */
  function Attempt(s: Sim, history: seq<Bar>, setup: Setup): Option<Quote>
    requires history != []
  {
    var bar := history[|history| - 1];
    if setup.delayed then
      if s.pending.None? then None
      else Some(Quote(s.pending.value, bar.open, setup.cost(s.pending.value, bar)))
    else
      var order := setup.strategy(history);
      if order.None? then None
      else
        var quoted := setup.cost(order.value, bar);
        Some(Quote(order.value, SlippedPrice(order.value, bar.close, quoted.slippage), quoted))
  }

  function Execute(account: Account, record: Record, q: Option<Quote>): Applied {
    if q.None? then Applied(account, record, 0.0)
    else ApplyOrder(account, record, q.value.order, q.value.price, q.value.costs)
  }

  lemma BarStepExecutesOneAttempt(s: Sim, history: seq<Bar>, setup: Setup)
    requires history != []
    requires !setup.delayed ==> s.pending.None?
    ensures var a := Execute(s.account, s.record, Attempt(s, history, setup));
            var t := BarStep(s, history, setup);
            && t.account == a.account
            && t.record == a.record.(curve := s.record.curve + [Equity(a.account, history[|history| - 1].close)])
            && t.volume == s.volume + a.executed
            && (if setup.delayed then
                  t.pending == (if setup.strategy(history).Some? then setup.strategy(history) else None)
                else t.pending.None?)
  {
  }

  /** Slippage is priced in against the order: the whole order at the slipped price is worth that much more or less. */
  lemma SlippageIsAgainstTheOrder(order: Order, close: real, slippage: real)
    ensures var price := SlippedPrice(order, close, slippage);
            if order.sizeUsd <= 0.0 then price == close
            else if order.side.Buy? then price * order.sizeUsd == close * (order.sizeUsd + slippage)
            else price * order.sizeUsd == close * (order.sizeUsd - slippage)
  {
    if order.sizeUsd > 0.0 {
      var pct := slippage / order.sizeUsd;
      assert pct * order.sizeUsd == slippage;
      if order.side.Buy? {
        Reassociate(close, 1.0 + pct, order.sizeUsd);
      } else {
        Reassociate(close, 1.0 - pct, order.sizeUsd);
      }
    }
  }

  lemma Reassociate(x: real, y: real, z: real)
    ensures (x * y) * z == x * (y * z)
  {
  }

  /** Fee and slippage scale with what traded. */
  lemma CostsAreProportional(order: Order, price: real, executed: real, quoted: Costs)
    requires order.sizeUsd > 0.0
    ensures var f := FillFor(order, price, executed, quoted);
            && f.costs.fee * order.sizeUsd == quoted.fee * executed
            && f.costs.slippage * order.sizeUsd == quoted.slippage * executed
            && f.costs.gas == quoted.gas
  {
    var scale := executed / order.sizeUsd;
    assert scale * order.sizeUsd == executed;
    Reassociate(quoted.fee, scale, order.sizeUsd);
    Reassociate(quoted.slippage, scale, order.sizeUsd);
  }

  /** An order leaves at most one fill, of exactly the executed size, at the quoted price. */
  lemma FillIsExecuted(account: Account, record: Record, q: Quote)
    ensures var a := ApplyOrder(account, record, q.order, q.price, q.costs);
            if a.executed <= TOLERANCE then
              a.executed == 0.0 && a.account == account && a.record.fills == record.fills
            else
              && |a.record.fills| == |record.fills| + 1
              && a.record.fills[..|record.fills|] == record.fills
              && var f := a.record.fills[|record.fills|];
                 && f.order == q.order.(sizeUsd := a.executed)
                 && f.price == q.price && f.costs.gas == q.costs.gas
                 && a.account == Settle(account, f, a.executed)
  {
  }

  /** The fill an order leaves is charged the quoted fee and slippage per dollar of the request. */
  lemma FillIsCharged(account: Account, record: Record, q: Quote)
    requires ApplyOrder(account, record, q.order, q.price, q.costs).executed > TOLERANCE
    ensures var a := ApplyOrder(account, record, q.order, q.price, q.costs);
            && |a.record.fills| == |record.fills| + 1
            && var f := a.record.fills[|record.fills|];
               && f.costs.fee * q.order.sizeUsd == q.costs.fee * a.executed
               && f.costs.slippage * q.order.sizeUsd == q.costs.slippage * a.executed
               && f.costs.gas == q.costs.gas
  {
    CostsAreProportional(q.order, q.price, ApplyOrder(account, record, q.order, q.price, q.costs).executed, q.costs);
  }

  // ---- no look-ahead ----

  lemma {:induction false} PendingOnlyWhenDelayed(bars: seq<Bar>, setup: Setup)
    ensures !setup.delayed ==> Run(bars, setup).pending.None?
  {
    if bars != [] {
      PendingOnlyWhenDelayed(bars[..|bars| - 1], setup);
    }
  }

  /** One bar only appends to the record, and appends exactly one equity point. */
  lemma BarStepAppends(s: Sim, history: seq<Bar>, setup: Setup)
    requires history != []
    requires !setup.delayed ==> s.pending.None?
    ensures var t := BarStep(s, history, setup);
            && s.record.fills <= t.record.fills
            && s.record.trades <= t.record.trades
            && |t.record.curve| == |s.record.curve| + 1 && s.record.curve <= t.record.curve
  {
    BarStepExecutesOneAttempt(s, history, setup);
  }

  /** What a run has recorded after k bars is a prefix of what it records after more. */
  lemma {:induction false} RunExtendsPrefix(bars: seq<Bar>, k: nat, setup: Setup)
    requires k <= |bars|
    ensures var early := Run(bars[..k], setup).record;
            var late := Run(bars, setup).record;
            && early.fills <= late.fills
            && early.trades <= late.trades
            && early.curve <= late.curve
            && |early.curve| == k && |late.curve| == |bars|
    decreases |bars|
  {
    if bars == [] {
    } else {
      var init := bars[..|bars| - 1];
      PendingOnlyWhenDelayed(init, setup);
      BarStepAppends(Run(init, setup), bars, setup);
      if k < |bars| {
        RunExtendsPrefix(init, k, setup);
        assert init[..k] == bars[..k];
      } else {
        RunExtendsPrefix(init, |init|, setup);
        assert init[..|init|] == init;
        assert bars[..k] == bars;
      }
    }
  }

  /** Two histories that agree up to bar k give the same fills, trades and equity up to bar k. */
  lemma NoLookAhead(a: seq<Bar>, b: seq<Bar>, k: nat, setup: Setup)
    requires k <= |a| && k <= |b| && a[..k] == b[..k]
    ensures var early := Run(a[..k], setup).record;
            forall whole | whole in {Run(a, setup).record, Run(b, setup).record} ::
              && early.fills <= whole.fills
              && early.trades <= whole.trades
              && |early.curve| == k && early.curve <= whole.curve
  {
    RunExtendsPrefix(a, k, setup);
    RunExtendsPrefix(b, k, setup);
  }

  // ---- clamp bounds ----

  /** The position stays non-negative; a buy needs more cash than gas and a sell never exceeds what is held. */
  lemma ClampBounds(account: Account, record: Record, q: Quote)
    requires account.units >= 0.0
    ensures var a := ApplyOrder(account, record, q.order, q.price, q.costs);
            && a.account.units >= 0.0
            && 0.0 <= a.executed
            && (a.executed > 0.0 ==> a.executed <= q.order.sizeUsd)
            && (q.order.side.Buy? && account.cash <= q.costs.gas ==> a.executed == 0.0)
            && (q.order.side.Sell? ==> a.executed <= Worth(account.units, q.price) + TOLERANCE || a.executed == 0.0)
            && (q.order.side.Sell? && q.price <= 0.0 ==> a.executed == 0.0)
  {
    if q.price > 0.0 {
      var a := ApplyOrder(account, record, q.order, q.price, q.costs);
      UnitsOrder(a.executed, 0.0, q.price);
    } else {
      assert Worth(account.units, q.price) <= 0.0;
    }
  }

  lemma {:induction false} PositionNeverNegative(bars: seq<Bar>, setup: Setup)
    ensures Run(bars, setup).account.units >= 0.0
  {
    if bars != [] {
      var init := bars[..|bars| - 1];
      PositionNeverNegative(init, setup);
      PendingOnlyWhenDelayed(init, setup);
      BarStepExecutesOneAttempt(Run(init, setup), bars, setup);
      var s := Run(init, setup);
      var q := Attempt(s, bars, setup);
      if q.Some? {
        ClampBounds(s.account, s.record, q.value);
      }
    }
  }

  ghost predicate BarEffected(s: Sim, t: Sim, fill: Option<Fill>) {
    && s.account.units >= 0.0
    && if fill.None? then t.account == s.account && t.record.fills == s.record.fills
       else
         var f := fill.value;
         && t.record.fills == s.record.fills + [f]
         && t.account == Settle(s.account, f, f.order.sizeUsd)
         && f.order.sizeUsd > TOLERANCE
         && (f.order.side.Sell? ==>
               f.price > 0.0 && f.order.sizeUsd <= Worth(s.account.units, f.price) + TOLERANCE)
  }

  /** What one more bar does to the books: nothing, or one settled fill that respects the clamp. */
  lemma BarEffect(bars: seq<Bar>, setup: Setup) returns (fill: Option<Fill>)
    requires bars != []
    ensures BarEffected(Run(bars[..|bars| - 1], setup), Run(bars, setup), fill)
  {
    var init := bars[..|bars| - 1];
    var s, t := Run(init, setup), Run(bars, setup);
    PositionNeverNegative(init, setup);
    PendingOnlyWhenDelayed(init, setup);
    BarStepExecutesOneAttempt(s, bars, setup);
    var q := Attempt(s, bars, setup);
    fill := None;
    if q.Some? {
      FillIsExecuted(s.account, s.record, q.value);
      ClampBounds(s.account, s.record, q.value);
      if |t.record.fills| > |s.record.fills| {
        fill := Some(t.record.fills[|s.record.fills|]);
        assert t.record.fills == s.record.fills + [fill.value];
      }
    }
  }

  /** A filled buy overdraws by at most its own fee and slippage; a clamped one by exactly those. */
  lemma BuyOverdraft(account: Account, record: Record, q: Quote)
    requires q.order.side.Buy?
    requires ApplyOrder(account, record, q.order, q.price, q.costs).executed > 0.0
    ensures var a := ApplyOrder(account, record, q.order, q.price, q.costs);
            var f := a.record.fills[|record.fills|];
            var overdraft := f.costs.fee + f.costs.slippage;
            && account.cash > q.costs.gas
            && a.account.cash >= -overdraft - TOLERANCE
            && (a.executed < q.order.sizeUsd ==> a.account.cash == -overdraft)
            && (a.executed < q.order.sizeUsd ==> (a.account.cash >= 0.0 <==> q.costs.fee + q.costs.slippage <= 0.0))
  {
    var a := ApplyOrder(account, record, q.order, q.price, q.costs);
    FillIsExecuted(account, record, q);
    if a.executed < q.order.sizeUsd {
      var scale := a.executed / q.order.sizeUsd;
      var f := a.record.fills[|record.fills|];
      assert f == FillFor(q.order, q.price, a.executed, q.costs);
      assert scale > 0.0;
      assert f.costs.fee + f.costs.slippage == (q.costs.fee + q.costs.slippage) * scale;
      ScaleKeepsSign(q.costs.fee + q.costs.slippage, scale);
    }
  }

  /** A quote the account cannot settle in full: fee and slippage on top of a clamped size, or everything at once. */
  predicate Overdraws(cash: real, q: Quote) {
    if q.order.sizeUsd > cash - q.costs.gas + TOLERANCE then q.costs.fee + q.costs.slippage > 0.0
    else q.order.sizeUsd + q.costs.Total() > cash
  }

  /**
   After any filled buy, clamped or not, the account can lose more than everything it was given - some later
   positive close marks equity below zero - exactly when its quote overdraws.
   */
  lemma FilledBuyCanLoseMoreThanAll(account: Account, record: Record, q: Quote)
    requires q.order.side.Buy? && account.units >= 0.0
    requires ApplyOrder(account, record, q.order, q.price, q.costs).executed > 0.0
    ensures var after := ApplyOrder(account, record, q.order, q.price, q.costs).account;
            (exists close: real | close > 0.0 :: Equity(after, close) < 0.0) <==> Overdraws(account.cash, q)
  {
    var a := ApplyOrder(account, record, q.order, q.price, q.costs);
    BuyOverdraft(account, record, q);
    ClampBounds(account, record, q);
    SomeCloseIsRuinous(a.account);
    if q.order.sizeUsd <= account.cash - q.costs.gas + TOLERANCE {
      UnclampedBuySettles(account, record, q);
    }
  }

  lemma UnclampedBuySettles(account: Account, record: Record, q: Quote)
    requires q.order.side.Buy? && TOLERANCE < q.order.sizeUsd <= account.cash - q.costs.gas + TOLERANCE
    ensures ApplyOrder(account, record, q.order, q.price, q.costs).account.cash
         == account.cash - (q.order.sizeUsd + q.costs.Total())
  {
  }

  /** No refusal is needed: a hundred dollars buy a hundred dollars' worth at a fee of one, and owe a dollar. */
  lemma UnrefusedBuyCanLoseMoreThanAll(record: Record, timestamp: int)
    ensures var q := Quote(Order(Buy, 100.0, "ETH", timestamp), 1.0, Costs(1.0, 0.0, 0.0));
            var a := ApplyOrder(Account(100.0, 0.0, None), record, q.order, q.price, q.costs);
            && a.record.underfundedBuys == record.underfundedBuys && a.executed == 100.0
            && a.account.cash == -1.0 && Equity(a.account, 0.001) < 0.0
  {
    var order, costs := Order(Buy, 100.0, "ETH", timestamp), Costs(1.0, 0.0, 0.0);
    var a := ApplyOrder(Account(100.0, 0.0, None), record, order, 1.0, costs);
    UnclampedBuySettles(Account(100.0, 0.0, None), record, Quote(order, 1.0, costs));
    assert UnitsAt(100.0, 1.0) == 100.0;
    assert a.account.units == 100.0;
    assert Worth(100.0, 0.001) == 0.1;
  }

  lemma SomeCloseIsRuinous(account: Account)
    requires account.units >= 0.0
    ensures (exists close: real | close > 0.0 :: Equity(account, close) < 0.0) <==> account.cash < 0.0
  {
    if account.cash < 0.0 {
      if account.units == 0.0 {
        assert Equity(account, 1.0) < 0.0;
      } else {
        var close := -account.cash / (2.0 * account.units);
        assert account.units * close == -account.cash / 2.0;
        PositiveCofactor(close, account.units);
        assert Equity(account, close) < 0.0;
      }
    } else {
      forall close: real | close > 0.0
        ensures Equity(account, close) >= 0.0
      {
        assert Worth(account.units, close) >= 0.0;
      }
    }
  }

  lemma PositiveCofactor(x: real, units: real)
    requires units > 0.0 && units * x > 0.0
    ensures x > 0.0
  {
  }

  lemma ScaleKeepsSign(x: real, scale: real)
    requires scale > 0.0
    ensures x * scale <= 0.0 <==> x <= 0.0
  {
  }

  // ---- attribution of the final equity ----

  function CostOf(f: Fill): real { f.costs.Total() }

  /** Cash a buy at a non-positive price spends without receiving units. */
  function BurnOf(f: Fill): real { if f.order.side.Buy? && f.price <= 0.0 then f.order.sizeUsd else 0.0 }

  function SellOf(f: Fill): real { if f.order.side.Sell? then 1.0 else 0.0 }

  function Sum(fills: seq<Fill>, weight: Fill -> real): real {
    if fills == [] then 0.0 else Sum(fills[..|fills| - 1], weight) + weight(fills[|fills| - 1])
  }

  lemma SumAppend(fills: seq<Fill>, f: Fill, weight: Fill -> real)
    ensures Sum(fills + [f], weight) == Sum(fills, weight) + weight(f)
  {
    assert (fills + [f])[..|fills|] == fills;
  }

  /** Units carried into each bar, times that bar's change of close. */
  function HoldingGain(bars: seq<Bar>, setup: Setup): real {
    if |bars| <= 1 then 0.0
    else
      var init := bars[..|bars| - 1];
      HoldingGain(init, setup)
      + Worth(Run(init, setup).account.units, bars[|bars| - 1].close - bars[|bars| - 2].close)
  }

  /** Each bar's change of position, times how far the bar closed from its fill price. */
  function ExecutionGain(bars: seq<Bar>, setup: Setup): real {
    if bars == [] then 0.0
    else
      var init := bars[..|bars| - 1];
      ExecutionGain(init, setup) + BarGain(Run(init, setup), Run(bars, setup), bars[|bars| - 1].close)
  }

  function BarGain(before: Sim, after: Sim, close: real): real {
    if |after.record.fills| > |before.record.fills| then
      Worth(after.account.units - before.account.units,
            close - after.record.fills[|after.record.fills| - 1].price)
    else 0.0
  }

  function FinalEquity(bars: seq<Bar>, setup: Setup): real {
    if bars == [] then setup.initial
    else Equity(Run(bars, setup).account, bars[|bars| - 1].close)
  }

  /** The USD by which a sell's proceeds exceed the units that left the position. */
  function Excess(bars: seq<Bar>, setup: Setup): real {
    FinalEquity(bars, setup)
    - (setup.initial - Sum(Run(bars, setup).record.fills, CostOf) - Sum(Run(bars, setup).record.fills, BurnOf)
       + HoldingGain(bars, setup) + ExecutionGain(bars, setup))
  }

  /** Marked at any close, one fill moves equity by its cost, its burn and its distance to that close. */
  lemma SettleMovesEquity(account: Account, f: Fill, close: real)
    requires account.units >= 0.0
    requires f.order.sizeUsd > 0.0
    requires f.order.side.Sell? ==> f.price > 0.0 && f.order.sizeUsd <= Worth(account.units, f.price) + TOLERANCE
    ensures var after := Settle(account, f, f.order.sizeUsd);
            var excess := Equity(after, close)
                          - (Equity(account, close) - CostOf(f) - BurnOf(f)
                             + Worth(after.units - account.units, close - f.price));
            if f.order.side.Buy? then excess == 0.0 else 0.0 <= excess <= TOLERANCE
  {
    var after := Settle(account, f, f.order.sizeUsd);
    var u, p := UnitsAt(f.order.sizeUsd, f.price), f.price;
    var d := after.units - account.units;
    Distribute(account.units, d, close, p);
    if p > 0.0 {
      UnitsTimesPrice(f.order.sizeUsd, p);
      UnitsOrder(f.order.sizeUsd, account.units, p);
      if f.order.side.Buy? {
        assert d == u;
      } else if u <= account.units {
        assert d == -u;
        assert d * p == -f.order.sizeUsd;
      } else {
        assert d == -account.units;
        assert d * p == -Worth(account.units, p);
      }
    } else {
      assert d == 0.0;
    }
  }

  lemma Distribute(units: real, d: real, close: real, price: real)
    ensures Worth(units + d, close) == Worth(units, close) + Worth(d, close - price) + d * price
  {
  }

  lemma {:induction false} ExcessIsBounded(bars: seq<Bar>, setup: Setup)
    ensures 0.0 <= Excess(bars, setup) <= TOLERANCE * Sum(Run(bars, setup).record.fills, SellOf)
  {
    if bars != [] {
      var init := bars[..|bars| - 1];
      ExcessIsBounded(init, setup);
      AttributionStep(bars, setup);
    }
  }

  /** Buys at positive prices burn nothing. */
  lemma {:induction false} NothingBurnt(fills: seq<Fill>)
    requires forall f | f in fills && f.order.side.Buy? :: f.price > 0.0
    ensures Sum(fills, BurnOf) == 0.0
  {
    if fills != [] {
      NothingBurnt(fills[..|fills| - 1]);
    }
  }

  /**
   Final equity is the initial capital, less every fill's costs and burn, plus what holding and execution
   earned, to within one tolerance per sell and never below it.
   */
  lemma EquityAttribution(bars: seq<Bar>, setup: Setup)
    ensures var fills := Run(bars, setup).record.fills;
            var explained := setup.initial - Sum(fills, CostOf) - Sum(fills, BurnOf)
                             + HoldingGain(bars, setup) + ExecutionGain(bars, setup);
            explained <= FinalEquity(bars, setup) <= explained + TOLERANCE * Sum(fills, SellOf)
  {
    ExcessIsBounded(bars, setup);
  }

  /** One more bar adds between nothing and one tolerance per sell to the excess. */
  lemma AttributionStep(bars: seq<Bar>, setup: Setup)
    requires bars != []
    ensures var init := bars[..|bars| - 1];
            var sells := Sum(Run(bars, setup).record.fills, SellOf) - Sum(Run(init, setup).record.fills, SellOf);
            0.0 <= Excess(bars, setup) - Excess(init, setup) <= TOLERANCE * sells
  {
    var init := bars[..|bars| - 1];
    var fill := BarEffect(bars, setup);
    Carry(bars, setup);
    AttributeBar(Run(init, setup), Run(bars, setup), fill, bars[|bars| - 1].close);
  }

  lemma AttributeBar(s: Sim, t: Sim, fill: Option<Fill>, close: real)
    requires BarEffected(s, t, fill)
    ensures var costs := Sum(t.record.fills, CostOf) - Sum(s.record.fills, CostOf);
            var burn := Sum(t.record.fills, BurnOf) - Sum(s.record.fills, BurnOf);
            var sells := Sum(t.record.fills, SellOf) - Sum(s.record.fills, SellOf);
            var excess := Equity(t.account, close) - Equity(s.account, close) + costs + burn - BarGain(s, t, close);
            0.0 <= excess <= TOLERANCE * sells
  {
    if fill.Some? {
      SettleMovesEquity(s.account, fill.value, close);
      SumAppend(s.record.fills, fill.value, CostOf);
      SumAppend(s.record.fills, fill.value, BurnOf);
      SumAppend(s.record.fills, fill.value, SellOf);
    }
  }

  /** Re-marking the carried position at the new close is exactly the holding gain of the bar. */
  lemma Carry(bars: seq<Bar>, setup: Setup)
    requires bars != []
    ensures var init := bars[..|bars| - 1];
            Equity(Run(init, setup).account, bars[|bars| - 1].close)
            == FinalEquity(init, setup) + HoldingGain(bars, setup) - HoldingGain(init, setup)
  {
    var init := bars[..|bars| - 1];
    var units := Run(init, setup).account.units;
    if init == [] {
      assert Worth(units, bars[0].close) == 0.0;
    } else {
      assert Worth(units, bars[|bars| - 1].close)
          == Worth(units, bars[|bars| - 2].close) + Worth(units, bars[|bars| - 1].close - bars[|bars| - 2].close);
    }
  }
}
