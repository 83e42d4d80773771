/**
 Simulation and paper trading keep one set of books. With the overlays off, the loop driven by the
 replay feed and the paper executor fills exactly what the strategy asks; it reproduces the simulator
 if and only if the simulator refused nothing and every request exceeded the size tolerance.
 */
module Parity {
  import opened Market
  import opened Engine
  import opened EngineLaws
  import opened Ledgers
  import opened Executors
  import opened Loops
  import opened LoopMoves
  import opened Replay
  import opened Recovery

  function PaperFill(order: Order, bar: Bar, cost: CostModel): Fill {
    var costs := cost(order, bar);
    Fill(order, SlippedPrice(order, bar.close, costs.slippage), costs)
  }

  /** The fills of a strategy nobody refuses. */
  function PaperFills(bars: seq<Bar>, setup: Setup): seq<Fill> {
    if bars == [] then []
    else
      var order := setup.strategy(bars);
      PaperFills(bars[..|bars| - 1], setup)
      + (if order.Some? then [PaperFill(order.value, bars[|bars| - 1], setup.cost)] else [])
  }

  /** The simulator refused nothing, and no request was dust. */
  ghost predicate Feasible(bars: seq<Bar>, setup: Setup) {
    && Run(bars, setup).record.oversizedSells == 0
    && Run(bars, setup).record.underfundedBuys == 0
    && AllSizable(bars, setup.strategy)
  }

  ghost predicate AllSizable(bars: seq<Bar>, strategy: Strategy) {
    forall k | 1 <= k <= |bars| :: Sizable(strategy(bars[..k]))
  }

  predicate Sizable(order: Option<Order>) { order.Some? ==> order.value.sizeUsd > TOLERANCE }

  // ---- the simulator against the unrefused fills ----

  function Refusals(r: Record): nat { r.oversizedSells + r.underfundedBuys }

  /** One order becomes its own paper fill exactly when it is neither refused nor dust. */
  lemma OrderFillsAsAsked(account: Account, record: Record, order: Order, bar: Bar, cost: CostModel)
    ensures var f := PaperFill(order, bar, cost);
            var r := ApplyOrder(account, record, order, f.price, f.costs).record;
            && Refusals(record) <= Refusals(r)
            && record.fills <= r.fills && |r.fills| <= |record.fills| + 1
            && (r.fills == record.fills + [f] <==> Refusals(r) == Refusals(record) && order.sizeUsd > TOLERANCE)
  {
    var f := PaperFill(order, bar, cost);
    var a := ApplyOrder(account, record, order, f.price, f.costs);
    FillIsExecuted(account, record, Quote(order, f.price, f.costs));
    if a.record.fills == record.fills + [f] {
      assert a.record.fills[|record.fills|] == f;
    }
  }

  lemma EngineStep(bars: seq<Bar>, setup: Setup)
    requires bars != [] && !setup.delayed
    ensures var s, t := Run(bars[..|bars| - 1], setup).record, Run(bars, setup).record;
            var order := setup.strategy(bars);
            && Refusals(s) <= Refusals(t)
            && s.fills <= t.fills && |t.fills| <= |s.fills| + 1
            && (order.None? ==> t.fills == s.fills && Refusals(t) == Refusals(s))
            && (order.Some? ==>
                  (t.fills == s.fills + [PaperFill(order.value, bars[|bars| - 1], setup.cost)]
                   <==> Refusals(t) == Refusals(s) && order.value.sizeUsd > TOLERANCE))
  {
    var s := Run(bars[..|bars| - 1], setup);
    PendingOnlyWhenDelayed(bars[..|bars| - 1], setup);
    BarStepExecutesOneAttempt(s, bars, setup);
    var order := setup.strategy(bars);
    if order.Some? {
      OrderFillsAsAsked(s.account, s.record, order.value, bars[|bars| - 1], setup.cost);
    }
  }

  ghost predicate AsAskedIffFeasible(bars: seq<Bar>, setup: Setup) {
    var fills := Run(bars, setup).record.fills;
    && |fills| <= |PaperFills(bars, setup)|
    && (fills == PaperFills(bars, setup) <==> Feasible(bars, setup))
  }

  lemma {:induction false} EngineFillsAsAskedIffFeasible(bars: seq<Bar>, setup: Setup)
    requires !setup.delayed
    ensures AsAskedIffFeasible(bars, setup)
  {
    if bars != [] {
      EngineFillsAsAskedIffFeasible(bars[..|bars| - 1], setup);
      OneMoreAsAsked(bars, setup);
    }
  }

  lemma OneMoreAsAsked(bars: seq<Bar>, setup: Setup)
    requires bars != [] && !setup.delayed && AsAskedIffFeasible(bars[..|bars| - 1], setup)
    ensures AsAskedIffFeasible(bars, setup)
  {
    var init, order := bars[..|bars| - 1], setup.strategy(bars);
    EngineStep(bars, setup);
    FeasibleStep(bars, setup);
    var next := if order.Some? then Some(PaperFill(order.value, bars[|bars| - 1], setup.cost)) else None;
    AsAskedStep(Run(init, setup).record, Run(bars, setup).record, PaperFills(init, setup), next,
                order.Some? && order.value.sizeUsd > TOLERANCE);
    assert PaperFills(bars, setup) == PaperFills(init, setup) + (if next.Some? then [next.value] else []);
  }

  lemma AsAskedStep(s: Record, t: Record, paper: seq<Fill>, next: Option<Fill>, sizable: bool)
    requires |s.fills| <= |paper| && s.fills <= t.fills && |t.fills| <= |s.fills| + 1
    requires next.None? ==> t.fills == s.fills && Refusals(t) == Refusals(s)
    requires next.Some? ==> (t.fills == s.fills + [next.value] <==> Refusals(t) == Refusals(s) && sizable)
    ensures var longer := paper + (if next.Some? then [next.value] else []);
            && |t.fills| <= |longer|
            && (t.fills == longer <==>
                  s.fills == paper && Refusals(t) == Refusals(s) && (next.Some? ==> sizable))
  {
    if next.Some? && t.fills == paper + [next.value] {
      assert s.fills == t.fills[..|s.fills|] == paper;
    }
  }

  lemma SizableStep(bars: seq<Bar>, strategy: Strategy)
    requires bars != []
    ensures AllSizable(bars, strategy) <==> AllSizable(bars[..|bars| - 1], strategy) && Sizable(strategy(bars))
  {
    var init := bars[..|bars| - 1];
    assert bars[..|bars|] == bars;
    assert forall k | 1 <= k <= |init| :: init[..k] == bars[..k];
    if AllSizable(init, strategy) && Sizable(strategy(bars)) {
      forall k | 1 <= k <= |bars|
        ensures Sizable(strategy(bars[..k]))
      {
        if k < |bars| {
          assert init[..k] == bars[..k];
        }
      }
    }
  }

  lemma FeasibleStep(bars: seq<Bar>, setup: Setup)
    requires bars != [] && !setup.delayed
    ensures var init := bars[..|bars| - 1];
            Feasible(bars, setup) <==>
              && Feasible(init, setup)
              && Refusals(Run(bars, setup).record) == Refusals(Run(init, setup).record)
              && Sizable(setup.strategy(bars))
  {
    EngineStep(bars, setup);
    SizableStep(bars, setup.strategy);
  }

  // ---- the quiet loop ----

  /** Overlays off, nothing read from the cockpit, and the paper executor behind the table. */
  ghost predicate Quiet(inp: Inputs, bar: Bar, cost: CostModel) {
    && inp.desired.None? && inp.social.None? && inp.floor.NoFloor? && !inp.halted
    && inp.autopilot.Disabled? && inp.kolOrder.None? && !inp.kolRefused && !inp.watching
    && (forall order :: inp.gate(order) == Some(order))
    && (forall key, order :: inp.venue(key, order) == PaperReply(order, bar, cost))
  }

  /** Quiet inputs with a log that is written. */
  function QuietInputs(bar: Bar, cost: CostModel): Inputs {
    Inputs(None, true, None, NoFloor, false, Disabled, None, false, (o: Order) => Some(o), false, false, false,
           (k: Key, o: Order) => PaperReply(o, bar, cost), true)
  }

  lemma QuietInputsAreQuiet(bar: Bar, cost: CostModel)
    ensures Quiet(QuietInputs(bar, cost), bar, cost)
  {
  }

  function EntryAfter(entry: Option<Fill>, fill: Fill): Option<Fill> {
    if fill.order.side.Sell? then None else if entry.Some? then entry else Some(fill)
  }

  function LiveTrade(entry: Option<Fill>, l: Ledger, fill: Fill): seq<Trade> {
    if fill.order.side.Sell? && entry.Some? then [Trade(entry.value, fill, Realized(l, fill))] else []
  }

  /** One quiet cycle books the strategy's order, as asked, or nothing. */
  ghost predicate QuietEffect(s: Loop, t: Loop, cfg: Config, order: Option<Order>, bar: Bar, cost: CostModel) {
    && t.curve == s.curve + [t.ledger.Equity(bar.close)]
    && (forall k | k in t.seen :: k in s.seen || k.timestamp == bar.timestamp)
    && if order.None? then
         t.fills == s.fills && t.trades == s.trades && t.entry == s.entry && Accounts(t.ledger) == Accounts(s.ledger)
       else
         var f := PaperFill(order.value, bar, cost);
         && t.fills == s.fills + [f]
         && t.entry == EntryAfter(s.entry, f)
         && t.trades == s.trades + LiveTrade(s.entry, s.ledger, f)
         && Accounts(t.ledger) == Accounts(Apply(s.ledger, f))
  }

  lemma FillPairs(s: Loop, key: Key, report: Report, fill: Fill, bar: Bar, inp: Inputs)
    ensures var b := HandleFill(s, key, report, fill, bar, inp).state;
            && b.entry == EntryAfter(s.entry, fill)
            && b.trades == s.trades + LiveTrade(s.entry, s.ledger, fill)
  {
  }

  lemma QuietSubmit(s: Loop, cfg: Config, inp: Inputs, order: Order, bar: Bar, cost: CostModel)
    requires Quiet(inp, bar, cost)
    requires forall k | k in s.seen :: k.timestamp != bar.timestamp
    ensures var t := Submit(s, cfg, inp, Base, order, bar);
            var f := PaperFill(order, bar, cost);
            && !t.raised && t.state.curve == s.curve
            && (forall k | k in t.state.seen :: k in s.seen || k.timestamp == bar.timestamp)
            && t.state.fills == s.fills + [f]
            && t.state.entry == EntryAfter(s.entry, f)
            && t.state.trades == s.trades + LiveTrade(s.entry, s.ledger, f)
            && Accounts(t.state.ledger) == Accounts(Apply(s.ledger, f))
  {
    var key := Key(cfg.symbol, bar.timestamp, Base);
    var reply := inp.venue(key, order);
    assert reply == PaperReply(order, bar, cost);
    var o := ExecuteOnce(s.seen, key, order, reply);
    assert key !in s.seen && o.reply == reply;
    var asked := Note(s, Asked(key)).(seen := o.seen);
    FillWrites(asked, key, reply.report, reply.report.fill.value, bar, inp);
    FillPairs(asked, key, reply.report, reply.report.fill.value, bar, inp);
  }

  lemma QuietClose(s: Loop, cfg: Config, inp: Inputs, bar: Bar, tradeId: Option<nat>, cost: CostModel)
    requires Quiet(inp, bar, cost) && !cfg.activityFloor
    ensures var c := ActivityAndClose(s, cfg, inp, bar, tradeId);
            && c.completed
            && c.state.curve == s.curve + [c.state.ledger.Equity(bar.close)]
            && c.state.seen == s.seen && c.state.fills == s.fills && c.state.trades == s.trades
            && c.state.entry == s.entry && Accounts(c.state.ledger) == Accounts(s.ledger)
  {
    MarkRaisesPeak(s.ledger, bar.close);
  }

  lemma QuietMain(s: Loop, cfg: Config, inp: Inputs, history: seq<Bar>, cost: CostModel)
    requires history != [] && Quiet(inp, history[|history| - 1], cost) && !cfg.activityFloor && !s.blockEntry
    requires forall k | k in s.seen :: k.timestamp != history[|history| - 1].timestamp
    ensures var c := MainPath(s, cfg, inp, history);
            c.completed && QuietEffect(s, c.state, cfg, cfg.strategy(history), history[|history| - 1], cost)
  {
    var bar := history[|history| - 1];
    var order := cfg.strategy(history);
    assert GatedOrder(s, cfg, inp, history) == order;
    if order.None? {
      QuietClose(s, cfg, inp, bar, None, cost);
    } else {
      QuietSubmit(s, cfg, inp, order.value, bar, cost);
      var t := Submit(s, cfg, inp, Base, order.value, bar);
      QuietClose(t.state, cfg, inp, bar, t.tradeId, cost);
    }
  }

  lemma QuietCycle(s: Loop, cfg: Config, step: Step, cost: CostModel)
    requires Quiet(step.inputs, step.Bar(), cost) && !cfg.activityFloor
    requires forall k | k in s.seen :: k.timestamp != step.Bar().timestamp
    ensures var c := Cycle(s, cfg, step.inputs, step.history);
            c.completed && QuietEffect(s, c.state, cfg, cfg.strategy(step.history), step.Bar(), cost)
  {
    var q := QuietStart(s, cfg, step, cost);
    QuietMain(q, cfg, step.inputs, step.history, cost);
    var c := Cycle(s, cfg, step.inputs, step.history);
    QuietEffectAfterPreparation(s, q, c.state, cfg, cfg.strategy(step.history), step.Bar(), cost);
  }

  /** A quiet cycle prepares, and then only the strategy speaks. */
  lemma QuietStart(s: Loop, cfg: Config, step: Step, cost: CostModel) returns (q: Loop)
    requires Quiet(step.inputs, step.Bar(), cost)
    ensures Cycle(s, cfg, step.inputs, step.history) == MainPath(q, cfg, step.inputs, step.history)
    ensures !q.blockEntry && q.curve == s.curve && q.seen == s.seen && q.fills == s.fills && q.trades == s.trades
    ensures q.entry == s.entry && SameBooks(s.ledger, q.ledger)
  {
    q := Prepare(s, cfg, step.inputs, step.Bar()).(blockEntry := false);
    var events := PrepareWrites(s, cfg, step.inputs, step.Bar());
  }

  lemma QuietEffectAfterPreparation(s: Loop, q: Loop, t: Loop, cfg: Config, order: Option<Order>,
                                    bar: Bar, cost: CostModel)
    requires QuietEffect(q, t, cfg, order, bar, cost)
    requires q.curve == s.curve && q.seen == s.seen && q.fills == s.fills && q.trades == s.trades && q.entry == s.entry
    requires SameBooks(s.ledger, q.ledger)
    ensures QuietEffect(s, t, cfg, order, bar, cost)
  {
    if order.Some? {
      var f := PaperFill(order.value, bar, cost);
      AccountsIgnoreMarks(s.ledger, q.ledger, f);
      assert Realized(s.ledger, f) == Realized(q.ledger, f);
    }
  }

  // ---- the whole run ----

  function LiveRun(bars: seq<Bar>, setup: Setup, cfg: Config, env: nat -> Inputs): Loop {
    RunSteps(Boot(setup.initial, PaperMode), cfg, ReplaySteps(bars, 0, |bars|, env))
  }

  ghost predicate QuietRun(bars: seq<Bar>, setup: Setup, cfg: Config, env: nat -> Inputs) {
    && cfg.strategy == setup.strategy && !cfg.activityFloor && !setup.delayed
    && (forall i: nat | i < |bars| :: Quiet(env(i), bars[i], setup.cost))
    && DistinctTimes(bars)
  }

  ghost predicate DistinctTimes(bars: seq<Bar>) {
    forall i, j | 0 <= i < j < |bars| :: bars[i].timestamp != bars[j].timestamp
  }

  /** What the live run has done after `bars`, whether or not the simulator agrees. */
  ghost predicate LiveLaw(bars: seq<Bar>, setup: Setup, s: Loop) {
    && s.fills == PaperFills(bars, setup)
    && Accounts(s.ledger) == Accounts(ApplyAll(Open(setup.initial), s.fills))
    && |s.curve| == |bars|
    && forall k | k in s.seen :: exists i :: 0 <= i < |bars| && bars[i].timestamp == k.timestamp
  }

  lemma ReplayStepsPrefix(bars: seq<Bar>, env: nat -> Inputs)
    requires bars != []
    ensures var steps := ReplaySteps(bars, 0, |bars|, env);
            && steps[..|bars| - 1] == ReplaySteps(bars[..|bars| - 1], 0, |bars| - 1, env)
            && steps[|bars| - 1] == Step(bars, env(|bars| - 1))
  {
    var init := bars[..|bars| - 1];
    assert bars[..|bars|] == bars;
    assert forall k | 1 <= k <= |init| :: init[..k] == bars[..k];
  }

  lemma LiveRunSnoc(bars: seq<Bar>, setup: Setup, cfg: Config, env: nat -> Inputs)
    requires bars != []
    ensures LiveRun(bars, setup, cfg, env)
         == After(LiveRun(bars[..|bars| - 1], setup, cfg, env), cfg, Step(bars, env(|bars| - 1)))
  {
    ReplayStepsPrefix(bars, env);
  }

  /** No key of the last bar is in the table yet. */
  lemma NewKeys(bars: seq<Bar>, setup: Setup, s: Loop)
    requires bars != [] && DistinctTimes(bars) && LiveLaw(bars[..|bars| - 1], setup, s)
    ensures forall k | k in s.seen :: k.timestamp != bars[|bars| - 1].timestamp
  {
    var init, last := bars[..|bars| - 1], bars[|bars| - 1];
    forall k | k in s.seen
      ensures k.timestamp != last.timestamp
    {
      var i :| 0 <= i < |init| && init[i].timestamp == k.timestamp;
      assert bars[i].timestamp != last.timestamp;
    }
  }

  lemma LiveStep(bars: seq<Bar>, setup: Setup, cfg: Config, env: nat -> Inputs)
    requires bars != [] && QuietRun(bars, setup, cfg, env)
    requires LiveLaw(bars[..|bars| - 1], setup, LiveRun(bars[..|bars| - 1], setup, cfg, env))
    ensures var s, t := LiveRun(bars[..|bars| - 1], setup, cfg, env), LiveRun(bars, setup, cfg, env);
            QuietEffect(s, t, cfg, setup.strategy(bars), bars[|bars| - 1], setup.cost)
  {
    var s := LiveRun(bars[..|bars| - 1], setup, cfg, env);
    NewKeys(bars, setup, s);
    LiveRunSnoc(bars, setup, cfg, env);
    assert Quiet(env(|bars| - 1), bars[|bars| - 1], setup.cost);
    QuietCycle(s, cfg, Step(bars, env(|bars| - 1)), setup.cost);
  }

  lemma EffectKeepsLiveLaw(bars: seq<Bar>, setup: Setup, cfg: Config, s: Loop, t: Loop)
    requires bars != [] && LiveLaw(bars[..|bars| - 1], setup, s)
    requires QuietEffect(s, t, cfg, setup.strategy(bars), bars[|bars| - 1], setup.cost)
    ensures LiveLaw(bars, setup, t)
  {
    var order := setup.strategy(bars);
    if order.Some? {
      var f := PaperFill(order.value, bars[|bars| - 1], setup.cost);
      AccountsIgnoreMarks(s.ledger, ApplyAll(Open(setup.initial), s.fills), f);
      assert t.fills[..|t.fills| - 1] == s.fills;
    } else {
      assert t.fills == PaperFills(bars, setup);
    }
    forall k | k in t.seen
      ensures exists i :: 0 <= i < |bars| && bars[i].timestamp == k.timestamp
    {
      if k in s.seen {
        var i :| 0 <= i < |bars| - 1 && bars[..|bars| - 1][i].timestamp == k.timestamp;
        assert bars[i].timestamp == k.timestamp;
      } else {
        assert bars[|bars| - 1].timestamp == k.timestamp;
      }
    }
  }

  lemma {:induction false} LiveRunFillsAsAsked(bars: seq<Bar>, setup: Setup, cfg: Config, env: nat -> Inputs)
    requires QuietRun(bars, setup, cfg, env)
    ensures LiveLaw(bars, setup, LiveRun(bars, setup, cfg, env))
  {
    if bars != [] {
      var init := bars[..|bars| - 1];
      assert forall i | 0 <= i < |init| :: init[i] == bars[i];
      LiveRunFillsAsAsked(init, setup, cfg, env);
      LiveStep(bars, setup, cfg, env);
      EffectKeepsLiveLaw(bars, setup, cfg, LiveRun(init, setup, cfg, env), LiveRun(bars, setup, cfg, env));
    }
  }

  /** Same round trips: entries and exits agree pairwise; the profits are compared separately. */
  predicate SamePairs(a: seq<Trade>, b: seq<Trade>) {
    |a| == |b| && forall i | 0 <= i < |a| :: a[i].entry == b[i].entry && a[i].exit == b[i].exit
  }

  ghost predicate SameRun(sim: Sim, live: Loop) {
    && live.fills == sim.record.fills
    && live.ledger.cash == sim.account.cash && live.ledger.units == sim.account.units
    && live.entry == sim.account.entry
    && live.curve == sim.record.curve
    && SamePairs(live.trades, sim.record.trades)
  }

  lemma FeasibleStepAgrees(bars: seq<Bar>, setup: Setup, cfg: Config, s: Loop, t: Loop)
    requires bars != [] && !setup.delayed && Feasible(bars, setup)
    requires LiveLaw(bars[..|bars| - 1], setup, s) && LiveLaw(bars, setup, t)
    requires SameRun(Run(bars[..|bars| - 1], setup), s)
    requires QuietEffect(s, t, cfg, setup.strategy(bars), bars[|bars| - 1], setup.cost)
    ensures SameRun(Run(bars, setup), t)
  {
    var init, last := bars[..|bars| - 1], bars[|bars| - 1];
    var before, after := Run(init, setup), Run(bars, setup);
    EngineFillsAsAskedIffFeasible(bars, setup);
    assert AsAskedIffFeasible(bars, setup);
    ReplayRefinesEngine(bars, setup);
    var fill := BarEffect(bars, setup);
    PendingOnlyWhenDelayed(init, setup);
    BarStepExecutesOneAttempt(before, bars, setup);
    PairsStep(before, after, s, t, cfg, setup.strategy(bars), last, setup.cost);
  }

  lemma PairsStep(before: Sim, after: Sim, s: Loop, t: Loop, cfg: Config, order: Option<Order>,
                  bar: Bar, cost: CostModel)
    requires SameRun(before, s) && QuietEffect(s, t, cfg, order, bar, cost)
    requires t.fills == after.record.fills
    requires t.ledger.cash == after.account.cash && t.ledger.units == after.account.units
    requires after.record.curve == before.record.curve + [Equity(after.account, bar.close)]
    requires if order.None? then after.account == before.account && after.record.trades == before.record.trades
             else
               var f := PaperFill(order.value, bar, cost);
               var a := ApplyOrder(before.account, before.record, order.value, f.price, f.costs);
               && after.account == a.account && after.record.fills == a.record.fills
               && after.record.trades == a.record.trades
    ensures SameRun(after, t)
  {
    if order.Some? {
      var f := PaperFill(order.value, bar, cost);
      FillIsExecuted(before.account, before.record, Quote(order.value, f.price, f.costs));
      assert after.record.fills == before.record.fills + [f];
      assert after.record.fills[|before.record.fills|] == f;
    }
  }

  lemma {:induction false} FeasibleRunAgrees(bars: seq<Bar>, setup: Setup, cfg: Config, env: nat -> Inputs)
    requires QuietRun(bars, setup, cfg, env) && Feasible(bars, setup)
    ensures SameRun(Run(bars, setup), LiveRun(bars, setup, cfg, env))
  {
    if bars != [] {
      var init := bars[..|bars| - 1];
      assert forall i | 0 <= i < |init| :: init[i] == bars[i];
      FeasibleStep(bars, setup);
      FeasibleRunAgrees(init, setup, cfg, env);
      LiveRunFillsAsAsked(init, setup, cfg, env);
      LiveRunFillsAsAsked(bars, setup, cfg, env);
      LiveStep(bars, setup, cfg, env);
      FeasibleStepAgrees(bars, setup, cfg, LiveRun(init, setup, cfg, env), LiveRun(bars, setup, cfg, env));
    }
  }

  /**
   Sim/live parity, exactly: for every pure strategy, cost model and bars with distinct timestamps, the
   live paper run and the immediate-fill simulation agree on fills if and only if the simulation refused
   nothing and every request exceeded the tolerance; then cash, units, equity curve, open entry and
   round-trip pairing agree as well.
   */
  lemma SimLiveParity(bars: seq<Bar>, setup: Setup, cfg: Config, env: nat -> Inputs)
    requires QuietRun(bars, setup, cfg, env)
    ensures var sim, live := Run(bars, setup), LiveRun(bars, setup, cfg, env);
            && (live.fills == sim.record.fills <==> Feasible(bars, setup))
            && (Feasible(bars, setup) ==> SameRun(sim, live))
  {
    LiveRunFillsAsAsked(bars, setup, cfg, env);
    EngineFillsAsAskedIffFeasible(bars, setup);
    assert AsAskedIffFeasible(bars, setup);
    if Feasible(bars, setup) {
      FeasibleRunAgrees(bars, setup, cfg, env);
    }
  }
}
