/**
 The drivers side by side: the loop object on a replay feed and the simulator over the same bars, the process
 that comes back after a crash, and a concrete paper run whose peak does not.
 */
module PaperRun {
  import opened Market
  import opened Engine
  import opened Ledgers
  import opened Executors
  import opened Loops
  import opened LoopMoves
  import opened LoopOnce
  import opened Recovery
  import opened Anchors
  import opened Lives
  import opened Restart
  import opened OwnBar
  import opened KeyTables
  import opened Forgotten
  import opened PaperCrash
  import opened ModeSafety
  import opened ActivityDay
  import opened DecisionLoops
  import opened Parity

  /** No cycle of a quiet run raises. */
  lemma {:induction false} QuietRunCompletes(bars: seq<Bar>, setup: Setup, cfg: Config, env: nat -> Inputs)
    requires QuietRun(bars, setup, cfg, env)
    ensures AllComplete(Boot(setup.initial, PaperMode), cfg, ReplaySteps(bars, 0, |bars|, env))
  {
    if bars != [] {
      var init := bars[..|bars| - 1];
      assert forall i | 0 <= i < |init| :: init[i] == bars[i];
      QuietRunCompletes(init, setup, cfg, env);
      ReplayStepsPrefix(bars, env);
      LiveRunFillsAsAsked(init, setup, cfg, env);
      LastCycleCompletes(bars, setup, cfg, env);
    }
  }

  lemma LastCycleCompletes(bars: seq<Bar>, setup: Setup, cfg: Config, env: nat -> Inputs)
    requires bars != [] && QuietRun(bars, setup, cfg, env)
    requires LiveLaw(bars[..|bars| - 1], setup, LiveRun(bars[..|bars| - 1], setup, cfg, env))
    ensures Completes(LiveRun(bars[..|bars| - 1], setup, cfg, env), cfg, Step(bars, env(|bars| - 1)))
  {
    var s := LiveRun(bars[..|bars| - 1], setup, cfg, env);
    NewKeys(bars, setup, s);
    assert Quiet(env(|bars| - 1), bars[|bars| - 1], setup.cost);
    QuietCycle(s, cfg, Step(bars, env(|bars| - 1)), setup.cost);
  }

  /** The cycles a feed has driven are the replay of the bars it has handed out. */
  lemma FedSteps(bars: seq<Bar>, steps: seq<Step>, env: nat -> Inputs)
    requires FedBy(bars, 0, steps, env) && |steps| <= |bars|
    ensures steps == ReplaySteps(bars[..|steps|], 0, |steps|, env)
  {
    FedByReplay(bars, 0, steps, env);
    var replayed := ReplaySteps(bars[..|steps|], 0, |steps|, env);
    forall i | 0 <= i < |steps|
      ensures steps[i] == replayed[i]
    {
      assert bars[..|steps|][..i + 1] == bars[..i + 1];
    }
  }

  /** A quiet run cannot raise, so it stops only when the feed is used up. */
  lemma QuietRunUsesTheFeed(bars: seq<Bar>, setup: Setup, cfg: Config, env: nat -> Inputs, steps: seq<Step>, at: Cycled)
    requires QuietRun(bars, setup, cfg, env) && FedBy(bars, 0, steps, env) && |steps| <= |bars|
    requires RanTo(Boot(setup.initial, PaperMode), cfg, steps, at)
    requires at.completed ==> |steps| == |bars|
    ensures at.state == LiveRun(bars, setup, cfg, env)
  {
    var done := bars[..|steps|];
    FedSteps(bars, steps, env);
    assert forall i | 0 <= i < |done| :: done[i] == bars[i];
    QuietRunCompletes(done, setup, cfg, env);
    assert at.completed;
    assert done == bars;
  }

  /** A quiet run of the loop object ends in the state parity speaks about. */
  method Paper(bars: seq<Bar>, setup: Setup, cfg: Config, env: nat -> Inputs) returns (loop: DecisionLoop)
    requires QuietRun(bars, setup, cfg, env)
    ensures fresh(loop) && loop.View() == LiveRun(bars, setup, cfg, env)
  {
    loop := new DecisionLoop(cfg, setup.initial, PaperMode);
    var feed := new ReplayFeed(bars, 0);
    var _, completed, steps := loop.Run(feed, None, env);
    QuietRunUsesTheFeed(bars, setup, cfg, env, steps, Cycled(loop.View(), completed));
  }

  /** One set of books: on a feasible run the loop object and the simulator end with the same account. */
  method PaperAndBacktest(bars: seq<Bar>, setup: Setup, cfg: Config, env: nat -> Inputs)
    returns (loop: DecisionLoop, result: BacktestResult, account: Account)
    requires QuietRun(bars, setup, cfg, env)
    ensures loop.fills == result.fills <==> Feasible(bars, setup)
    ensures Feasible(bars, setup) ==>
              && loop.ledger.cash == account.cash && loop.ledger.units == account.units
              && loop.equityCurve == result.equityCurve && SamePairs(loop.trades, result.trades)
  {
    loop := Paper(bars, setup, cfg, env);
    var volume;
    result, account, volume := RunBacktest(bars, setup);
    SimLiveParity(bars, setup, cfg, env);
  }

  /** A new process over the log of a crashed one, launched in `mode`; the log itself survives outside the process. */
  method Reboot(store: Store, cfg: Config, initial: real, mode: Mode) returns (loop: DecisionLoop)
    requires store.trades == [] ==> store.ledger == []
    ensures fresh(loop) && loop.View() == Started(store, initial, mode)
  {
    loop := new DecisionLoop(cfg, initial, mode);
    var recovered := loop.Recover(store);
    loop.store := store;
    if !recovered {
      assert store == Store([], [], []);
      EmptyLogRestoresNothing(initial, mode);
    }
  }

  // ---- a peak that does not come back ----

  function FreeOfCost(): CostModel { (order: Order, bar: Bar) => Costs(0.0, 0.0, 0.0) }

  function PaperInputs(bar: Bar): Inputs { QuietInputs(bar, FreeOfCost()) }

  /** Buy a hundred dollars' worth on the first bar, then hold. */
  function BuyAndHold(): Config {
    Config("ETH", (history: seq<Bar>) => if |history| == 1 then Some(Order(Buy, 100.0, "ETH", 0)) else None, false,
           false, 0, 0.0)
  }

  function FirstBar(): Step { Step([FlatBar(0, 100.0)], PaperInputs(FlatBar(0, 100.0))) }

  function NextBar(price: real): Step {
    Step([FlatBar(0, 100.0), FlatBar(HOUR_MS, price)], PaperInputs(FlatBar(HOUR_MS, price)))
  }

  ghost predicate OneUnitHeld(s: Loop) {
    && s.ledger.cash == 900.0 && s.ledger.units == 1.0 && |s.fills| == 1
    && forall k | k in s.seen :: k.timestamp == 0
  }

  lemma FirstFill()
    ensures PaperFill(Order(Buy, 100.0, "ETH", 0), FlatBar(0, 100.0), FreeOfCost())
         == Fill(Order(Buy, 100.0, "ETH", 0), 100.0, Costs(0.0, 0.0, 0.0))
  {
    assert 0.0 / 100.0 == 0.0;
  }

  lemma FirstBooking(initial: real, f: Fill)
    requires f.order.side.Buy?
    ensures var l := Apply(Open(initial), f);
            l.cash == initial - (f.order.sizeUsd + f.costs.Total()) && l.units == UnitsAt(f.order.sizeUsd, f.price)
  {
  }

  lemma OneUnit()
    ensures UnitsAt(100.0, 100.0) == 1.0
  {
  }

  lemma HoldsOneUnit(boot: Loop, s: Loop, cfg: Config, order: Order, bar: Bar, cost: CostModel, f: Fill)
    requires boot == Boot(1_000.0, PaperMode) && QuietEffect(boot, s, cfg, Some(order), bar, cost)
    requires f == PaperFill(order, bar, cost) && f.order.side.Buy? && f.order.sizeUsd == 100.0 == f.price
    requires f.costs.Total() == 0.0 && bar.timestamp == 0
    ensures OneUnitHeld(s)
  {
    FirstBooking(1_000.0, f);
    OneUnit();
    assert Accounts(s.ledger) == Accounts(Apply(Open(1_000.0), f));
    assert s.ledger.cash == Apply(Open(1_000.0), f).cash && s.ledger.units == Apply(Open(1_000.0), f).units;
  }

  lemma FirstBarBuysOneUnit()
    ensures OneUnitHeld(After(Boot(1_000.0, PaperMode), BuyAndHold(), FirstBar()))
  {
    var boot, order := Boot(1_000.0, PaperMode), Order(Buy, 100.0, "ETH", 0);
    assert BuyAndHold().strategy(FirstBar().history) == Some(order);
    QuietCycle(boot, BuyAndHold(), FirstBar(), FreeOfCost());
    FirstFill();
    HoldsOneUnit(boot, After(boot, BuyAndHold(), FirstBar()), BuyAndHold(), order, FirstBar().Bar(), FreeOfCost(),
                 PaperFill(order, FirstBar().Bar(), FreeOfCost()));
  }

  /** Holding one unit while the second bar makes a new high, then crashing: the peak comes back lower. */
  lemma ANewHighIsForgotten() returns (price: real)
    ensures var live := RunSteps(Boot(1_000.0, PaperMode), BuyAndHold(), [FirstBar(), NextBar(price)]);
            RecoveredLedger(live.store, 1_000.0).peak < live.ledger.peak
  {
    var boot, cfg := Boot(1_000.0, PaperMode), BuyAndHold();
    var s := After(boot, cfg, FirstBar());
    FirstBarBuysOneUnit();
    price := s.ledger.peak;
    var step := NextBar(price);
    var t := After(s, cfg, step);
    assert cfg.strategy(step.history).None?;
    QuietCycle(s, cfg, step, FreeOfCost());
    var now := FirstBarMirrored(s);
    assert s.ledger.Equity(price) == 900.0 + price;
    NewHighWithoutAFillIsForgotten(s, cfg, step, 1_000.0, now);
    TwoCycles(boot, s, t, cfg, FirstBar(), step);
  }

  lemma FirstBarMirrored(s: Loop) returns (now: int)
    requires s == After(Boot(1_000.0, PaperMode), BuyAndHold(), FirstBar())
    ensures Mirrored(s, 1_000.0, now)
  {
    var boot, cfg, step := Boot(1_000.0, PaperMode), BuyAndHold(), FirstBar();
    RunSnoc(boot, boot, cfg, [], step);
    assert [] + [step] == [step];
    assert FillsRecorded(boot, cfg, [step]) by {
      assert [step][..0] == [];
    }
    now := RunIsMirrored(1_000.0, PaperMode, cfg, [step]);
  }

  // ---- a second trade of the day ----

  /** Buy on the first bar, under an activity rule that wants ten dollars traded every day. */
  function DailyTrader(): Config { BuyAndHold().(activityFloor := true, activityUsd := 10.0) }

  function AllowedInputs(bar: Bar): Inputs { PaperInputs(bar).(allowlisted := true, guardrails := true) }

  function Opening(): Step { Step([FlatBar(0, 100.0)], AllowedInputs(FlatBar(0, 100.0))) }

  function SameDayBar(): Step {
    Step([FlatBar(0, 100.0), FlatBar(HOUR_MS, 100.0)], AllowedInputs(FlatBar(HOUR_MS, 100.0)))
  }

  /** A quiet cycle that fills leaves nothing for the activity rule. */
  lemma FilledCycleTrades(s: Loop, cfg: Config, step: Step, order: Order, cost: CostModel)
    requires Quiet(step.inputs, step.Bar(), cost) && cfg.strategy(step.history) == Some(order)
    requires s.seen == map[] && s.fills == []
    ensures |After(s, cfg, step).fills| == 1
  {
    var inp, bar := step.inputs, step.Bar();
    var p := Prepare(s, cfg, inp, bar);
    var events := PrepareWrites(s, cfg, inp, bar);
    var q := p.(blockEntry := false);
    QuietSubmit(q, cfg, inp, order, bar, cost);
    SubmitCounts(q, cfg, inp, Base, order, bar);
    var t := Submit(q, cfg, inp, Base, order, bar);
    assert ActivityOrder(t.state, cfg, inp, bar).None?;
    assert GatedOrder(q, cfg, inp, step.history) == Some(order);
    assert Cycle(s, cfg, inp, step.history) == MainPath(q, cfg, inp, step.history);
  }

  lemma OneCycleIsReliable(boot: Loop, cfg: Config, step: Step, cost: CostModel)
    requires step.inputs.recorded && Quiet(step.inputs, step.Bar(), cost)
    ensures ReliableRun(boot, cfg, [step])
  {
    assert [step][..0] == [];
    forall key, order
      ensures step.inputs.venue(key, order).Proper()
    {
      assert step.inputs.venue(key, order) == PaperReply(order, step.Bar(), cost);
    }
  }

  lemma FirstDayCounts(s: Loop, cfg: Config, step: Step, initial: real)
    requires s == After(Boot(initial, PaperMode), cfg, step)
    ensures CarriedOver(s, Day(step)) == |s.fills|
  {
    CycleCycles(Boot(initial, PaperMode), cfg, step);
    CycleKeepsDayLaw(Boot(initial, PaperMode), s, cfg, step);
  }

  /** A first cycle that trades, a crash, and a silent cycle of the same day with the rule in force. */
  lemma TradesAgain(initial: real, boot: Mode, cfg: Config, first: Step, next: Step, order: Order, cost: CostModel)
    requires Quiet(first.inputs, first.Bar(), cost) && first.inputs.recorded
    requires cfg.strategy(first.history) == Some(order)
    requires Silent(cfg, next) && Day(next) == Day(first)
    requires forall held :: RuleApplies(cfg, next.inputs, next.Bar(), held)
    ensures var crashed := RunSteps(Boot(initial, PaperMode), cfg, [first]);
            var back := Started(crashed.store, initial, boot);
            SecondTrade(crashed, back, cfg, next) && ForcedIn(back, After(back, cfg, next))
  {
    var start := Boot(initial, PaperMode);
    var s := After(start, cfg, first);
    RunSnoc(start, start, cfg, [], first);
    assert [] + [first] == [first];
    FilledCycleTrades(start, cfg, first, order, cost);
    FirstDayCounts(s, cfg, first, initial);
    OneCycleIsReliable(start, cfg, first, cost);
    OneProcess(initial, cfg, PaperMode, [first]);
    OneReliable(initial, cfg, PaperMode, [first]);
    var now := RunIsMirrored(initial, PaperMode, cfg, [first]);
    RestartCanForceASecondTrade(initial, cfg, [Process(PaperMode, [first])], boot, next);
  }

  /**
   Buy on the first bar, crash, come back an hour later: the loop that never stopped lets the day be, the recovered
   one asks for another trade.
   */
  lemma ASecondTradeIsForced(boot: Mode)
    ensures var crashed := RunSteps(Boot(1_000.0, PaperMode), DailyTrader(), [Opening()]);
            var back := Started(crashed.store, 1_000.0, boot);
            && SecondTrade(crashed, back, DailyTrader(), SameDayBar())
            && ForcedIn(back, After(back, DailyTrader(), SameDayBar()))
  {
    TradesAgain(1_000.0, boot, DailyTrader(), Opening(), SameDayBar(), Order(Buy, 100.0, "ETH", 0), FreeOfCost());
  }

  // ---- relaunched in another mode ----

  /** A loop that sold nothing and wrote it down comes back flat, in whatever mode it is launched. */
  lemma ComesBackFlat(s: Loop, initial: real, mode: Mode, now: int)
    requires Mirrored(s, initial, now) && |s.store.trades| <= RECENT && s.ledger.units == 0.0
    ensures Started(s.store, initial, mode).ledger.units == 0.0
  {
    MirrorRestores(s, initial, now);
  }

  lemma SellingIsRecorded(desired: Mode)
    ensures ReliableRun(Boot(1_000.0, PaperMode), SellingConfig(), [SellingStep(desired)])
  {
    assert [SellingStep(desired)][..0] == [];
    var inp := FillingInputs(desired);
    forall key, order
      ensures inp.venue(key, order).Proper()
    {
    }
  }

  /**
   Launched in paper, toggled to the main network while flat, one fill, a crash, launched in paper again and fed the
   same bar: the first cycle follows the toggle, which empties the recovered table, and the key is filled once more.
   */
  lemma RelaunchFillsAKeyTwice()
    ensures var cfg, step := SellingConfig(), SellingStep(MainnetMode);
            var crashed := After(Boot(1_000.0, PaperMode), cfg, step);
            var back := Started(crashed.store, 1_000.0, PaperMode);
            && FilledLast(Boot(1_000.0, PaperMode), crashed, Key("ETH", 0, Base), MainnetMode)
            && FilledLast(back, After(back, cfg, step), Key("ETH", 0, Base), MainnetMode)
  {
    var start, cfg, step := Boot(1_000.0, PaperMode), SellingConfig(), SellingStep(MainnetMode);
    var order := Order(Sell, 10.0, "ETH", 0);
    var s := After(start, cfg, step);
    FlatLoopFills(start, cfg, step, order, MainnetMode);
    RunSnoc(start, start, cfg, [], step);
    assert [] + [step] == [step];
    SellingIsRecorded(MainnetMode);
    var now := RunIsMirrored(1_000.0, PaperMode, cfg, [step]);
    ComesBackFlat(s, 1_000.0, PaperMode, now);
    FlatLoopFills(Started(s.store, 1_000.0, PaperMode), cfg, step, order, MainnetMode);
  }
}
