/**
 Replaying the feed from its first bar after a crash: a quiet run of a pure strategy trades again exactly when a cycle
 that traded has fallen out of what recovery reads.
 */
module Rerun {
  import opened Market
  import opened Engine
  import opened Ledgers
  import opened Executors
  import opened Loops
  import opened LoopMoves
  import opened Ordering
  import opened Recovery
  import opened Lives
  import opened LoopOnce
  import opened KeyTables
  import opened Forgotten
  import opened Parity
  import opened PaperCrash

  function CycleKey(cfg: Config, bar: Bar): Key { Key(cfg.symbol, bar.timestamp, Base) }

  // ---- one quiet cycle, whatever the table holds ----

  /** The strategy's order is answered from the table, or filled and remembered. */
  lemma QuietCycleAgain(s: Loop, cfg: Config, step: Step, cost: CostModel)
    requires Quiet(step.inputs, step.Bar(), cost) && !cfg.activityFloor
    ensures var t, key, order := After(s, cfg, step), CycleKey(cfg, step.Bar()), cfg.strategy(step.history);
            if order.None? || Remembers(s.seen, key) then t.fills == s.fills && t.seen == s.seen
            else
              && |t.fills| == |s.fills| + 1
              && t.seen == s.seen[key := PaperReply(order.value, step.Bar(), cost).report]
  {
    var inp, bar, order := step.inputs, step.Bar(), cfg.strategy(step.history);
    var p := Prepare(s, cfg, inp, bar);
    var events := PrepareWrites(s, cfg, inp, bar);
    var q := p.(blockEntry := false);
    assert GatedOrder(q, cfg, inp, step.history) == order;
    assert After(s, cfg, step) == MainPath(q, cfg, inp, step.history).state;
    if order.None? {
      QuietClose(q, cfg, inp, bar, None, cost);
    } else {
      var t := Submit(q, cfg, inp, Base, order.value, bar);
      QuietSubmitAgain(q, cfg, inp, order.value, bar, cost);
      QuietClose(t.state, cfg, inp, bar, t.tradeId, cost);
    }
  }

  lemma QuietSubmitAgain(q: Loop, cfg: Config, inp: Inputs, order: Order, bar: Bar, cost: CostModel)
    requires Quiet(inp, bar, cost)
    ensures var t, key := Submit(q, cfg, inp, Base, order, bar), CycleKey(cfg, bar);
            && !t.raised
            && if Remembers(q.seen, key) then t.state.fills == q.fills && t.state.seen == q.seen
               else
                 && |t.state.fills| == |q.fills| + 1 && t.state.store.decisions == q.store.decisions
                 && t.state.seen == q.seen[key := PaperReply(order, bar, cost).report]
                 && (t.tradeId.Some? <==> inp.recorded)
  {
    var key := CycleKey(cfg, bar);
    var reply := inp.venue(key, order);
    assert reply == PaperReply(order, bar, cost);
    if Remembers(q.seen, key) {
      KnownKeySubmits(q, cfg, inp, Base, order, bar);
    } else {
      NewKeySubmits(q, cfg, inp, Base, order, bar);
      FillWrites(Note(q, Asked(key)).(seen := q.seen[key := reply.report]), key, reply.report, reply.report.fill.value,
                 bar, inp);
    }
  }

  // ---- the decision rows of the first run ----

  /** A quiet recorded cycle under a new key writes one row, which names a trade exactly when the strategy ordered. */
  lemma QuietDecision(s: Loop, cfg: Config, step: Step, cost: CostModel) returns (id: Option<nat>)
    requires Quiet(step.inputs, step.Bar(), cost) && !cfg.activityFloor && step.inputs.recorded
    requires !Remembers(s.seen, CycleKey(cfg, step.Bar()))
    ensures After(s, cfg, step).store.decisions
         == RecordDecision(s.store.decisions, DecisionRow(CycleKey(cfg, step.Bar()), step.Bar().timestamp, id))
    ensures id.Some? <==> cfg.strategy(step.history).Some?
  {
    var inp, bar, order := step.inputs, step.Bar(), cfg.strategy(step.history);
    var p := Prepare(s, cfg, inp, bar);
    var events := PrepareWrites(s, cfg, inp, bar);
    var q := p.(blockEntry := false);
    assert GatedOrder(q, cfg, inp, step.history) == order;
    assert After(s, cfg, step) == MainPath(q, cfg, inp, step.history).state;
    id := None;
    if order.Some? {
      QuietSubmitAgain(q, cfg, inp, order.value, bar, cost);
      id := Submit(q, cfg, inp, Base, order.value, bar).tradeId;
    }
  }

  /** One row per bar, in order, naming a trade exactly where the strategy ordered. */
  ghost predicate RowsOfBars(rows: seq<DecisionRow>, bars: seq<Bar>, cfg: Config) {
    && |rows| == |bars|
    && forall i | 0 <= i < |bars| ::
         && rows[i].cycle == CycleKey(cfg, bars[i]) && rows[i].timestamp == bars[i].timestamp
         && (rows[i].tradeId.Some? <==> cfg.strategy(bars[..i + 1]).Some?)
  }

  lemma RowsSnoc(rows: seq<DecisionRow>, bars: seq<Bar>, cfg: Config, row: DecisionRow)
    requires bars != [] && RowsOfBars(rows, bars[..|bars| - 1], cfg)
    requires row.cycle == CycleKey(cfg, bars[|bars| - 1]) && row.timestamp == bars[|bars| - 1].timestamp
    requires row.tradeId.Some? <==> cfg.strategy(bars).Some?
    ensures RowsOfBars(rows + [row], bars, cfg)
  {
    var init := bars[..|bars| - 1];
    assert bars[..|bars|] == bars;
    assert forall i | 0 <= i < |init| :: init[i] == bars[i] && init[..i + 1] == bars[..i + 1];
  }

  lemma RowAppended(rows: seq<DecisionRow>, bars: seq<Bar>, cfg: Config, row: DecisionRow)
    requires bars != [] && DistinctTimes(bars) && RowsOfBars(rows, bars[..|bars| - 1], cfg)
    requires row.cycle == CycleKey(cfg, bars[|bars| - 1]) && row.timestamp == bars[|bars| - 1].timestamp
    requires row.tradeId.Some? <==> cfg.strategy(bars).Some?
    ensures RowsOfBars(RecordDecision(rows, row), bars, cfg)
  {
    forall i | 0 <= i < |rows|
      ensures rows[i].cycle != row.cycle
    {
      assert bars[i].timestamp != bars[|bars| - 1].timestamp;
    }
    NewCycleIsAppended(rows, row);
    RowsSnoc(rows, bars, cfg, row);
  }

  lemma LastRow(s: Loop, t: Loop, bars: seq<Bar>, setup: Setup, cfg: Config, inp: Inputs)
    requires bars != [] && DistinctTimes(bars) && t == After(s, cfg, Step(bars, inp))
    requires Quiet(inp, bars[|bars| - 1], setup.cost) && inp.recorded && !cfg.activityFloor
    requires !Remembers(s.seen, CycleKey(cfg, bars[|bars| - 1]))
    requires RowsOfBars(s.store.decisions, bars[..|bars| - 1], cfg)
    ensures RowsOfBars(t.store.decisions, bars, cfg)
  {
    var last := bars[|bars| - 1];
    var id := QuietDecision(s, cfg, Step(bars, inp), setup.cost);
    RowAppended(s.store.decisions, bars, cfg, DecisionRow(CycleKey(cfg, last), last.timestamp, id));
  }

  lemma {:induction false} LiveRows(bars: seq<Bar>, setup: Setup, cfg: Config, env: nat -> Inputs)
    requires QuietRun(bars, setup, cfg, env) && forall i: nat | i < |bars| :: env(i).recorded
    ensures RowsOfBars(LiveRun(bars, setup, cfg, env).store.decisions, bars, cfg)
  {
    if bars != [] {
      var init := bars[..|bars| - 1];
      assert forall i | 0 <= i < |init| :: init[i] == bars[i];
      LiveRows(init, setup, cfg, env);
      LiveRunFillsAsAsked(init, setup, cfg, env);
      NewKeys(bars, setup, LiveRun(init, setup, cfg, env));
      LiveRunSnoc(bars, setup, cfg, env);
      assert Quiet(env(|init|), bars[|init|], setup.cost);
      LastRow(LiveRun(init, setup, cfg, env), LiveRun(bars, setup, cfg, env), bars, setup, cfg, env(|init|));
    }
  }

  // ---- the replay ----

  /** The strategy ordered on bar i. */
  predicate Ordered(bars: seq<Bar>, cfg: Config, i: nat)
    requires i < |bars|
  {
    cfg.strategy(bars[..i + 1]).Some?
  }

  /** About the bars from j on, the table still says what it started with. */
  ghost predicate TableStill(seen: Seen, start: Seen, bars: seq<Bar>, cfg: Config, j: nat) {
    forall i: nat | j <= i < |bars| ::
      Remembers(seen, CycleKey(cfg, bars[i])) <==> Remembers(start, CycleKey(cfg, bars[i]))
  }

  /** Every cycle before j that ordered is one the first table knew. */
  ghost predicate AllKnown(start: Seen, bars: seq<Bar>, cfg: Config, j: nat)
    requires j <= |bars|
  {
    forall i: nat | i < j && Ordered(bars, cfg, i) :: Remembers(start, CycleKey(cfg, bars[i]))
  }

  /** After the first `j` bars of the replay. */
  ghost predicate Replayed(r: Loop, start: Seen, bars: seq<Bar>, cfg: Config, j: nat)
    requires j <= |bars|
  {
    TableStill(r.seen, start, bars, cfg, j) && (r.fills == [] <==> AllKnown(start, bars, cfg, j))
  }

  lemma TableStillNext(seen: Seen, after: Seen, start: Seen, bars: seq<Bar>, cfg: Config, j: nat)
    requires j < |bars| && DistinctTimes(bars) && TableStill(seen, start, bars, cfg, j)
    requires forall k: Key | k.timestamp != bars[j].timestamp :: Remembers(after, k) <==> Remembers(seen, k)
    ensures TableStill(after, start, bars, cfg, j + 1)
  {
    forall i: nat | j + 1 <= i < |bars|
      ensures Remembers(after, CycleKey(cfg, bars[i])) <==> Remembers(start, CycleKey(cfg, bars[i]))
    {
      assert bars[j].timestamp != bars[i].timestamp;
    }
  }

  lemma AllKnownNext(start: Seen, bars: seq<Bar>, cfg: Config, j: nat)
    requires j < |bars|
    ensures AllKnown(start, bars, cfg, j + 1)
            <==> AllKnown(start, bars, cfg, j) && (Ordered(bars, cfg, j) ==> Remembers(start, CycleKey(cfg, bars[j])))
  {
  }

  /** What a cycle of the replay does: an order under a key not remembered is filled and remembered. */
  ghost predicate FilledIfNew(r: Loop, t: Loop, key: Key, ordered: bool) {
    if !ordered || Remembers(r.seen, key) then t.fills == r.fills && t.seen == r.seen
    else
      && |t.fills| == |r.fills| + 1 && Remembers(t.seen, key)
      && forall k: Key | k != key :: Remembers(t.seen, k) <==> Remembers(r.seen, k)
  }

  lemma ReplayStep(r: Loop, t: Loop, start: Seen, bars: seq<Bar>, cfg: Config, j: nat)
    requires j < |bars| && DistinctTimes(bars) && Replayed(r, start, bars, cfg, j)
    requires FilledIfNew(r, t, CycleKey(cfg, bars[j]), Ordered(bars, cfg, j))
    ensures Replayed(t, start, bars, cfg, j + 1)
  {
    assert Remembers(r.seen, CycleKey(cfg, bars[j])) <==> Remembers(start, CycleKey(cfg, bars[j]));
    TableStillNext(r.seen, t.seen, start, bars, cfg, j);
    AllKnownNext(start, bars, cfg, j);
  }

  /** Each of the states is one cycle of the replay after the one before. */
  ghost predicate Replays(states: seq<Loop>, bars: seq<Bar>, cfg: Config) {
    && |states| == |bars| + 1
    && forall j: nat | j < |bars| ::
         FilledIfNew(states[j], states[j + 1], CycleKey(cfg, bars[j]), Ordered(bars, cfg, j))
  }

  lemma {:induction false} ReplayUpTo(states: seq<Loop>, bars: seq<Bar>, cfg: Config, j: nat)
    requires Replays(states, bars, cfg) && states[0].fills == [] && DistinctTimes(bars) && j <= |bars|
    ensures Replayed(states[j], states[0].seen, bars, cfg, j)
    decreases j
  {
    if j > 0 {
      ReplayUpTo(states, bars, cfg, j - 1);
      ReplayStep(states[j - 1], states[j], states[0].seen, bars, cfg, j - 1);
    }
  }

  lemma CycleFillsIfNew(r: Loop, t: Loop, bars: seq<Bar>, cfg: Config, j: nat, inp: Inputs, cost: CostModel)
    requires j < |bars| && t == After(r, cfg, Step(bars[..j + 1], inp))
    requires Quiet(inp, bars[j], cost) && !cfg.activityFloor
    ensures FilledIfNew(r, t, CycleKey(cfg, bars[j]), Ordered(bars, cfg, j))
  {
    QuietCycleAgain(r, cfg, Step(bars[..j + 1], inp), cost);
  }

  ghost predicate QuietFeed(bars: seq<Bar>, env: nat -> Inputs, cost: CostModel) {
    forall i: nat | i < |bars| :: Quiet(env(i), bars[i], cost)
  }

  lemma TraceFills(states: seq<Loop>, back: Loop, bars: seq<Bar>, cfg: Config, env: nat -> Inputs,
                   cost: CostModel, j: nat)
    requires j < |bars| && Quiet(env(j), bars[j], cost) && !cfg.activityFloor
    requires states == Trace(back, cfg, ReplaySteps(bars, 0, |bars|, env))
    ensures FilledIfNew(states[j], states[j + 1], CycleKey(cfg, bars[j]), Ordered(bars, cfg, j))
  {
    TraceNext(back, cfg, ReplaySteps(bars, 0, |bars|, env), j);
    CycleFillsIfNew(states[j], states[j + 1], bars, cfg, j, env(j), cost);
  }

  lemma TraceReplays(states: seq<Loop>, back: Loop, bars: seq<Bar>, cfg: Config, env: nat -> Inputs, cost: CostModel)
    requires QuietFeed(bars, env, cost) && !cfg.activityFloor
    requires states == Trace(back, cfg, ReplaySteps(bars, 0, |bars|, env))
    ensures Replays(states, bars, cfg)
  {
    forall j: nat | j < |bars|
      ensures FilledIfNew(states[j], states[j + 1], CycleKey(cfg, bars[j]), Ordered(bars, cfg, j))
    {
      assert Quiet(env(j), bars[j], cost);
      TraceFills(states, back, bars, cfg, env, cost, j);
    }
  }

  /** Which cycles recovery knows, when every bar left one row. */
  lemma KnownRows(store: Store, bars: seq<Bar>, cfg: Config, i: nat)
    requires StrictlyLater(bars) && RowsOfBars(store.decisions, bars, cfg) && i < |bars| && Ordered(bars, cfg, i)
    ensures Remembers(RecoveredSeen(store, map[]), CycleKey(cfg, bars[i])) <==> |bars| <= i + RECENT
  {
    var rows := store.decisions;
    assert rows[i].cycle == CycleKey(cfg, bars[i]) && rows[i].tradeId.Some?;
    RowsInOrder(rows, bars, cfg);
    MarkedIffRecent(store, bars[|bars| - 1].timestamp, i);
  }

  lemma RowsInOrder(rows: seq<DecisionRow>, bars: seq<Bar>, cfg: Config)
    requires StrictlyLater(bars) && RowsOfBars(rows, bars, cfg) && bars != []
    ensures DatedRows(rows, bars[|bars| - 1].timestamp) && OnePerCycle(rows)
  {
    forall i, j | 0 <= i < j < |rows|
      ensures rows[i].timestamp <= rows[j].timestamp && rows[i].cycle != rows[j].cycle
    {
      assert bars[i].timestamp < bars[j].timestamp;
    }
    forall i | 0 <= i < |rows|
      ensures rows[i].timestamp == rows[i].cycle.timestamp <= bars[|bars| - 1].timestamp
    {
      assert i < |bars| - 1 ==> bars[i].timestamp < bars[|bars| - 1].timestamp;
    }
  }

  lemma ReplayEnds(back: Loop, bars: seq<Bar>, cfg: Config, env: nat -> Inputs, cost: CostModel)
    requires back.fills == [] && QuietFeed(bars, env, cost) && !cfg.activityFloor && DistinctTimes(bars)
    ensures RunSteps(back, cfg, ReplaySteps(bars, 0, |bars|, env)).fills == []
            <==> AllKnown(back.seen, bars, cfg, |bars|)
  {
    var steps := ReplaySteps(bars, 0, |bars|, env);
    TraceReplays(Trace(back, cfg, steps), back, bars, cfg, env, cost);
    TraceEnds(back, cfg, steps);
    ReplayUpTo(Trace(back, cfg, steps), bars, cfg, |bars|);
  }

  /**
   A quiet recorded paper run over strictly later bars, crashed at its end, recovered, and replayed from the first bar
   with quiet inputs: it fills nothing if and only if every cycle that ordered is among the newest 500.
   */
  lemma ReplayTradesNothingIff(bars: seq<Bar>, setup: Setup, cfg: Config, env: nat -> Inputs, again: nat -> Inputs)
    requires QuietRun(bars, setup, cfg, env) && StrictlyLater(bars)
    requires forall i: nat | i < |bars| :: env(i).recorded
    requires forall i: nat | i < |bars| :: Quiet(again(i), bars[i], setup.cost)
    ensures var back := Started(LiveRun(bars, setup, cfg, env).store, setup.initial, PaperMode);
            RunSteps(back, cfg, ReplaySteps(bars, 0, |bars|, again)).fills == []
            <==> forall i: nat | i < |bars| && Ordered(bars, cfg, i) :: |bars| <= i + RECENT
  {
    var live := LiveRun(bars, setup, cfg, env);
    var back := Started(live.store, setup.initial, PaperMode);
    LiveRows(bars, setup, cfg, env);
    ReplayEnds(back, bars, cfg, again, setup.cost);
    forall i: nat | i < |bars| && Ordered(bars, cfg, i)
      ensures Remembers(back.seen, CycleKey(cfg, bars[i])) <==> |bars| <= i + RECENT
    {
      KnownRows(live.store, bars, cfg, i);
    }
  }
}
