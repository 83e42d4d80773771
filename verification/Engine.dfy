/**
 The event-driven simulator: orders are sized to what the account can settle, costs are
 scaled to what traded, round trips are paired, and fills may be delayed to the next open.
 `Run` is the specification; class `BacktestResult` and method `RunBacktest` are the loop.
 */
module Engine {
  import opened Market

  datatype Account = Account(cash: real, units: real, entry: Option<Fill>)

  datatype Record = Record(fills: seq<Fill>, trades: seq<Trade>, curve: seq<real>,
                           oversizedSells: nat, oversizedSellUsd: real,
                           underfundedBuys: nat, underfundedBuyUsd: real)

  datatype Sim = Sim(account: Account, record: Record, pending: Option<Order>, volume: real)

  datatype Setup = Setup(strategy: Strategy, cost: CostModel, initial: real, delayed: bool)

  /** What an order may trade, and by how much the request was refused. */
  datatype Sizing = Sizing(refused: bool, shortfall: real, executed: real)

  function SizeOrder(order: Order, price: real, account: Account, gas: real): Sizing {
    match order.side
    case Sell =>
      var held := Worth(account.units, price);
      if order.sizeUsd > held + TOLERANCE
      then Sizing(true, order.sizeUsd - held, Max(held, 0.0))
      else Sizing(false, 0.0, order.sizeUsd)
    case Buy =>
      var affordable := account.cash - gas;
      if order.sizeUsd > affordable + TOLERANCE
      then Sizing(true, order.sizeUsd - Max(affordable, 0.0), Max(affordable, 0.0))
      else Sizing(false, 0.0, order.sizeUsd)
  }

  /** The recorded fill: size and proportional costs shrink with a refused request, gas does not. */
  function FillFor(order: Order, price: real, executed: real, quoted: Costs): Fill {
    if executed != order.sizeUsd && order.sizeUsd > 0.0 then
      var scale := executed / order.sizeUsd;
      Fill(order.(sizeUsd := executed), price,
           Costs(quoted.fee * scale, quoted.gas, quoted.slippage * scale))
    else
      Fill(order, price, quoted)
  }

  function CountRefusal(record: Record, side: Side, sizing: Sizing): Record {
    if !sizing.refused then record
    else if side.Sell? then
      record.(oversizedSells := record.oversizedSells + 1,
              oversizedSellUsd := record.oversizedSellUsd + sizing.shortfall)
    else
      record.(underfundedBuys := record.underfundedBuys + 1,
              underfundedBuyUsd := record.underfundedBuyUsd + sizing.shortfall)
  }

  /** Cash, units and the open entry after `fill` of `executed` USD. */
  function Settle(account: Account, fill: Fill, executed: real): Account {
    var units := UnitsAt(executed, fill.price);
    var cost := fill.costs.Total();
    if fill.order.side.Buy? then
      Account(account.cash - (executed + cost), account.units + units,
              if account.entry.None? then Some(fill) else account.entry)
    else
      Account(account.cash + (executed - cost), Max(account.units - units, 0.0), None)
  }

  /** Entry and exit, paired; the simulator charges both legs' costs to the round trip. */
  function RoundTrip(entry: Fill, exit: Fill, units: real): Trade {
    Trade(entry, exit, (exit.price - entry.price) * units - exit.costs.Total() - entry.costs.Total())
  }

  /** The round trip a sell closes, if an entry is open. */
  function Closed(account: Account, fill: Fill, executed: real): seq<Trade> {
    if fill.order.side.Sell? && account.entry.Some?
    then [RoundTrip(account.entry.value, fill, UnitsAt(executed, fill.price))]
    else []
  }

  datatype Applied = Applied(account: Account, record: Record, executed: real)

  function ApplyOrder(account: Account, record: Record, order: Order, price: real, quoted: Costs): Applied {
    var sizing := SizeOrder(order, price, account, quoted.gas);
    var counted := CountRefusal(record, order.side, sizing);
    if sizing.executed <= TOLERANCE then
      Applied(account, counted, 0.0)
    else
      var fill := FillFor(order, price, sizing.executed, quoted);
      Applied(Settle(account, fill, sizing.executed),
              counted.(fills := counted.fills + [fill],
                       trades := counted.trades + Closed(account, fill, sizing.executed)),
              sizing.executed)
  }

  function FillStep(s: Sim, order: Order, price: real, quoted: Costs): Sim {
    var a := ApplyOrder(s.account, s.record, order, price, quoted);
    s.(account := a.account, record := a.record, volume := s.volume + a.executed)
  }

  /** The delayed fill that opens a bar. */
  function OpenBar(s: Sim, bar: Bar, setup: Setup): Sim {
    if setup.delayed && s.pending.Some? then
      FillStep(s, s.pending.value, bar.open, setup.cost(s.pending.value, bar)).(pending := None)
    else s
  }

  /** The strategy's answer to the history up to and including this bar. */
  function Decide(s: Sim, history: seq<Bar>, setup: Setup): Sim
    requires history != []
  {
    var bar := history[|history| - 1];
    var order := setup.strategy(history);
    if order.None? then s
    else if setup.delayed then s.(pending := order)
    else
      var quoted := setup.cost(order.value, bar);
      FillStep(s, order.value, SlippedPrice(order.value, bar.close, quoted.slippage), quoted)
  }

  function Equity(account: Account, close: real): real { account.cash + Worth(account.units, close) }

  function BarStep(s: Sim, history: seq<Bar>, setup: Setup): Sim
    requires history != []
  {
    var bar := history[|history| - 1];
    var t := Decide(OpenBar(s, bar, setup), history, setup);
    t.(record := t.record.(curve := t.record.curve + [Equity(t.account, bar.close)]))
  }

  function Start(initial: real): Sim {
    Sim(Account(initial, 0.0, None), Record([], [], [], 0, 0.0, 0, 0.0), None, 0.0)
  }

  /** The whole backtest, one bar after another. */
  function Run(bars: seq<Bar>, setup: Setup): Sim {
    if bars == [] then Start(setup.initial)
    else BarStep(Run(bars[..|bars| - 1], setup), bars, setup)
  }

  class BacktestResult {
    var fills: seq<Fill>
    var trades: seq<Trade>
    var equityCurve: seq<real>
    var oversizedSells: nat
    var oversizedSellUsd: real
    var underfundedBuys: nat
    var underfundedBuyUsd: real

    constructor ()
      ensures View() == Start(0.0).record
    {
      fills, trades, equityCurve := [], [], [];
      oversizedSells, oversizedSellUsd, underfundedBuys, underfundedBuyUsd := 0, 0.0, 0, 0.0;
    }

    function View(): Record
      reads this
    {
      Record(fills, trades, equityCurve, oversizedSells, oversizedSellUsd, underfundedBuys, underfundedBuyUsd)
    }

    /** Sizes, records and settles one order; `precomputed` saves a second cost-model call. */
    method ApplyFill(order: Order, price: real, bar: Bar, account: Account, cost: CostModel,
                     precomputed: Option<Costs>)
      returns (after: Account, executed: real)
      modifies this
      ensures var quoted := if precomputed.Some? then precomputed.value else cost(order, bar);
              Applied(after, View(), executed) == ApplyOrder(account, old(View()), order, price, quoted)
    {
      var quoted := if precomputed.Some? then precomputed.value else cost(order, bar);
      var size := order.sizeUsd;
      if order.side.Sell? {
        var held := Worth(account.units, price);
        if order.sizeUsd > held + TOLERANCE {
          oversizedSells := oversizedSells + 1;
          oversizedSellUsd := oversizedSellUsd + (order.sizeUsd - held);
          size := Max(held, 0.0);
        }
      } else {
        var affordable := account.cash - quoted.gas;
        if order.sizeUsd > affordable + TOLERANCE {
          underfundedBuys := underfundedBuys + 1;
          underfundedBuyUsd := underfundedBuyUsd + (order.sizeUsd - Max(affordable, 0.0));
          size := Max(affordable, 0.0);
        }
      }
      assert size == SizeOrder(order, price, account, quoted.gas).executed;
      assert View() == CountRefusal(old(View()), order.side, SizeOrder(order, price, account, quoted.gas));
      if size <= TOLERANCE {
        return account, 0.0;
      }
      var fill := FillFor(order, price, size, quoted);
      fills := fills + [fill];
      var units := UnitsAt(size, price);
      var total := fill.costs.Total();
      var cash, position, entry := account.cash, account.units, account.entry;
      if order.side.Buy? {
        cash := cash - (size + total);
        position := position + units;
        if entry.None? {
          entry := Some(fill);
        }
      } else {
        cash := cash + (size - total);
        position := Max(position - units, 0.0);
        if entry.Some? {
          trades := trades + [RoundTrip(entry.value, fill, units)];
          entry := None;
        }
      }
      assert trades == old(trades) + Closed(account, fill, size);
      return Account(cash, position, entry), size;
    }
  }

  method RunBacktest(bars: seq<Bar>, setup: Setup) returns (result: BacktestResult, account: Account, volume: real)
    ensures fresh(result)
    ensures var run := Run(bars, setup);
            result.View() == run.record && account == run.account && volume == run.volume
  {
    result := new BacktestResult();
    account := Account(setup.initial, 0.0, None);
    volume := 0.0;
    var pending: Option<Order> := None;
    for i := 0 to |bars|
      invariant fresh(result)
      invariant Sim(account, result.View(), pending, volume) == Run(bars[..i], setup)
    {
      ghost var before := Sim(account, result.View(), pending, volume);
      var bar := bars[i];
      var executed: real;
      if setup.delayed && pending.Some? {
        account, executed := result.ApplyFill(pending.value, bar.open, bar, account, setup.cost, None);
        volume := volume + executed;
        pending := None;
      }
      assert Sim(account, result.View(), pending, volume) == OpenBar(before, bar, setup);
      var history := bars[..i + 1];
      var order := setup.strategy(history);
      if order.Some? {
        if setup.delayed {
          pending := order;
        } else {
          var quoted := setup.cost(order.value, bar);
          var price := SlippedPrice(order.value, bar.close, quoted.slippage);
          account, executed := result.ApplyFill(order.value, price, bar, account, setup.cost, Some(quoted));
          volume := volume + executed;
        }
      }
      assert Sim(account, result.View(), pending, volume) == Decide(OpenBar(before, bar, setup), history, setup);
      result.equityCurve := result.equityCurve + [Equity(account, bar.close)];
      assert history[..|history| - 1] == bars[..i];
      assert Sim(account, result.View(), pending, volume) == BarStep(before, history, setup);
    }
    assert bars[..|bars|] == bars;
  }
}
