/** Exactly-once at the level of the loop: what the idempotency table guarantees over whole runs. */
module LoopOnce {
  import opened Market
  import opened Executors
  import opened Loops
  import opened LoopMoves

  /** Two fills under one key are separated by a mode switch. */
  ghost predicate FillsSeparated(log: seq<Event>) {
    forall i, j | 0 <= i < j < |log| && log[i].Filled? && log[j].Filled? && log[i].key == log[j].key ::
      exists k :: i < k < j && log[k].ModeSwitched?
  }

  /** Every key filled since the last mode switch is in the executor's table. */
  ghost predicate FillsRemembered(log: seq<Event>, seen: Seen) {
    forall i | 0 <= i < |log| && log[i].Filled? && (forall k | i < k < |log| :: !log[k].ModeSwitched?) ::
      log[i].key in seen && seen[log[i].key].IsRemembered()
  }

  ghost predicate OnceSoFar(s: Loop) { FillsSeparated(s.log) && FillsRemembered(s.log, s.seen) }

  lemma AppendNonFill(log: seq<Event>, seen: Seen, e: Event)
    requires FillsSeparated(log) && FillsRemembered(log, seen) && !e.Filled?
    ensures FillsSeparated(log + [e]) && FillsRemembered(log + [e], seen)
    ensures e.ModeSwitched? ==> FillsRemembered(log + [e], map[])
  {
    var longer := log + [e];
    forall i, j | 0 <= i < j < |longer| && longer[i].Filled? && longer[j].Filled? && longer[i].key == longer[j].key
      ensures exists k :: i < k < j && longer[k].ModeSwitched?
    {
      assert log[i].Filled? && log[j].Filled?;
      var k :| i < k < j && log[k].ModeSwitched?;
      assert longer[k].ModeSwitched?;
    }
    forall i | 0 <= i < |longer| && longer[i].Filled? && (forall k | i < k < |longer| :: !longer[k].ModeSwitched?)
      ensures longer[i].key in seen && seen[longer[i].key].IsRemembered()
    {
      assert forall k | i < k < |log| :: log[k] == longer[k];
    }
    if e.ModeSwitched? {
      assert longer[|log|].ModeSwitched?;
    }
  }

  lemma {:induction false} AppendNonFills(log: seq<Event>, seen: Seen, events: seq<Event>)
    requires FillsSeparated(log) && FillsRemembered(log, seen)
    requires forall e | e in events :: !e.Filled?
    ensures FillsSeparated(log + events) && FillsRemembered(log + events, seen)
  {
    if events == [] {
      assert log + events == log;
    } else {
      var init := events[..|events| - 1];
      AppendNonFills(log, seen, init);
      AppendNonFill(log + init, seen, events[|events| - 1]);
      assert log + init + [events[|events| - 1]] == log + events;
    }
  }

  lemma AppendFill(log: seq<Event>, seen: Seen, e: Event, report: Report)
    requires FillsSeparated(log) && FillsRemembered(log, seen)
    requires e.Filled? && report.IsRemembered()
    requires !(e.key in seen && seen[e.key].IsRemembered())
    ensures FillsSeparated(log + [e]) && FillsRemembered(log + [e], seen[e.key := report])
  {
    var longer := log + [e];
    forall i, j | 0 <= i < j < |longer| && longer[i].Filled? && longer[j].Filled? && longer[i].key == longer[j].key
      ensures exists k :: i < k < j && longer[k].ModeSwitched?
    {
      assert log[i].Filled?;
      if j < |log| {
        assert log[j].Filled?;
        var k :| i < k < j && log[k].ModeSwitched?;
        assert longer[k].ModeSwitched?;
      } else {
        var k :| i < k < |log| && log[k].ModeSwitched?;
        assert longer[k].ModeSwitched?;
      }
    }
    forall i | 0 <= i < |longer| && longer[i].Filled? && (forall k | i < k < |longer| :: !longer[k].ModeSwitched?)
      ensures longer[i].key in seen[e.key := report] && seen[e.key := report][longer[i].key].IsRemembered()
    {
      assert forall k | i < k < |log| :: log[k] == longer[k];
    }
  }

  /** The table only gains or refreshes remembered entries. */
  lemma RememberedGrows(log: seq<Event>, seen: Seen, seen': Seen)
    requires FillsRemembered(log, seen)
    requires forall k | k in seen && seen[k].IsRemembered() :: k in seen' && seen'[k].IsRemembered()
    ensures FillsRemembered(log, seen')
  {
  }

  lemma SubmissionKeepsOnce(a: Loop, b: Loop, key: Key, order: Order, inp: Inputs)
    requires Wrote(a, b, key, order, inp) && OnceSoFar(a)
    ensures OnceSoFar(b)
  {
    if WroteFill(a, b, key, order, inp) {
      var report := inp.venue(key, order).report;
      var e := Filled(key, report.fill.value, a.mode);
      AppendNonFill(a.log, a.seen, Asked(key));
      AppendFill(a.log + [Asked(key)], a.seen, e, report);
      assert b.log == a.log + [Asked(key)] + [e];
    } else {
      RememberedGrows(a.log, a.seen, b.seen);
      var events := b.log[|a.log|..];
      assert b.log == a.log + events;
      AppendNonFills(a.log, b.seen, events);
    }
  }

  lemma MoveKeepsOnce(s: Loop, cfg: Config, inp: Inputs, bar: Bar, m: Move)
    requires OnceSoFar(s)
    ensures OnceSoFar(Do(s, cfg, inp, bar, m))
  {
    if m.AskMove? {
      SubmitWrites(s, cfg, inp, m.channel, m.order, bar);
      SubmissionKeepsOnce(s, Do(s, cfg, inp, bar, m), Key(cfg.symbol, bar.timestamp, m.channel), m.order, inp);
    }
  }

  lemma {:induction false} MovesKeepOnce(s: Loop, cfg: Config, inp: Inputs, bar: Bar, moves: seq<Move>)
    requires OnceSoFar(s)
    ensures OnceSoFar(DoAll(s, cfg, inp, bar, moves))
  {
    if moves != [] {
      MovesKeepOnce(s, cfg, inp, bar, moves[..|moves| - 1]);
      MoveKeepsOnce(DoAll(s, cfg, inp, bar, moves[..|moves| - 1]), cfg, inp, bar, moves[|moves| - 1]);
    }
  }

  lemma PreparationKeepsOnce(s: Loop, p: Loop, cfg: Config, inp: Inputs, bar: Bar, events: seq<Event>)
    requires Prepared(s, p, cfg, inp, bar, events) && OnceSoFar(s)
    ensures OnceSoFar(p)
  {
    var watch := WatchEvents(s.watch, bar.timestamp);
    assert p.log == s.log + watch + events;
    assert forall e | e in watch :: e.FailureWarned? || e.AutoHalted?;
    AppendNonFills(s.log, s.seen, watch);
    if events == [] {
      assert p.log == s.log + watch;
    } else {
      AppendNonFill(s.log + watch, s.seen, events[0]);
      assert events == [events[0]];
    }
  }

  lemma CycleKeepsOnce(s: Loop, t: Loop, cfg: Config, step: Step)
    requires Cycles(s, t, cfg, step) && OnceSoFar(s)
    ensures OnceSoFar(t)
  {
    var p, events, moves :| CycleVia(s, t, cfg, step, p, events, moves);
    PreparationKeepsOnce(s, p, cfg, step.inputs, step.Bar(), events);
    MovesKeepOnce(p, cfg, step.inputs, step.Bar(), moves);
  }

  /**
   In every run, whatever the venue does and however often a bar repeats, two fills under one key have a mode switch
   between them.
   */
  lemma {:induction false} OneFillPerKeyPerMode(initial: real, mode: Mode, cfg: Config, steps: seq<Step>)
    ensures OnceSoFar(RunSteps(Boot(initial, mode), cfg, steps))
    decreases |steps|
  {
    if steps != [] {
      var init, last := steps[..|steps| - 1], steps[|steps| - 1];
      OneFillPerKeyPerMode(initial, mode, cfg, init);
      var s := RunSteps(Boot(initial, mode), cfg, init);
      CycleCycles(s, cfg, last);
      CycleKeepsOnce(s, RunSteps(Boot(initial, mode), cfg, steps), cfg, last);
    }
  }

  // ---- the same key filled twice ----

  /** A strategy that always sells ten dollars, under a toggle that may be switched. */
  function SellingConfig(): Config {
    Config("ETH", (history: seq<Bar>) => Some(Order(Sell, 10.0, "ETH", 0)), true, false, 0, 0.0)
  }

  /** Overlays off, the toggle at `desired`, and a venue that fills everything at one dollar, free of cost. */
  function FillingInputs(desired: Mode): Inputs {
    Inputs(Some(desired), true, None, NoFloor, false, Disabled, None, false, (o: Order) => Some(o), false, false, false,
           (k: Key, o: Order) => Answer(Report(FILLED, o, Some(Fill(o, 1.0, Costs(0.0, 0.0, 0.0))), None)), true)
  }

  function SellingStep(desired: Mode): Step { Step([FlatBar(0, 1.0)], FillingInputs(desired)) }

  /** The cycle logged a fill of `key` last, and left the loop flat in `mode`. */
  ghost predicate FilledLast(s: Loop, t: Loop, key: Key, mode: Mode) {
    && |s.log| < |t.log| && s.log <= t.log
    && t.log[|t.log| - 1].Filled? && t.log[|t.log| - 1].key == key
    && t.ledger.units == 0.0 && t.mode == mode && |t.fills| == |s.fills| + 1
  }

  /** A submission that sells into a flat ledger at one dollar. */
  lemma SoldNothing(q: Loop, cfg: Config, inp: Inputs, order: Order, bar: Bar, mode: Mode)
    requires q.ledger.units == 0.0 && order.side.Sell? && order.sizeUsd > 0.0 && q.mode == mode
    requires Key(cfg.symbol, bar.timestamp, Base) !in q.seen
    requires inp.venue(Key(cfg.symbol, bar.timestamp, Base), order)
          == Answer(Report(FILLED, order, Some(Fill(order, 1.0, Costs(0.0, 0.0, 0.0))), None))
    ensures var b := Submit(q, cfg, inp, Base, order, bar);
            !b.raised && FilledLast(q, b.state, Key(cfg.symbol, bar.timestamp, Base), mode)
  {
    var key := Key(cfg.symbol, bar.timestamp, Base);
    var report := inp.venue(key, order).report;
    var asked := Note(q, Asked(key)).(seen := ExecuteOnce(q.seen, key, order, Answer(report)).seen);
    FillWrites(asked, key, report, report.fill.value, bar, inp);
  }

  /** Nothing but the toggle and the strategy speaks in this cycle. */
  ghost predicate Bare(cfg: Config, step: Step, order: Order, desired: Mode) {
    && cfg.switching && !cfg.activityFloor && cfg.strategy(step.history) == Some(order)
    && step.inputs.desired == Some(desired) && step.inputs.rebuilds
    && step.inputs.floor.NoFloor? && !step.inputs.halted && step.inputs.social.None?
    && step.inputs.autopilot.Disabled? && step.inputs.kolOrder.None? && !step.inputs.kolRefused
    && !step.inputs.watching && step.inputs.gate(order) == Some(order)
  }

  lemma BareCycle(s: Loop, cfg: Config, step: Step, order: Order, desired: Mode)
    requires Bare(cfg, step, order, desired)
    ensures var q := Prepare(s, cfg, step.inputs, step.Bar()).(blockEntry := false);
            var t := Submit(q, cfg, step.inputs, Base, order, step.Bar());
            !t.raised ==> After(s, cfg, step) == Finalise(t.state, cfg, step.inputs, step.Bar(), t.tradeId)
  {
  }

  /** A flat loop whose table does not hold the bar's key, or is about to be emptied, fills that key. */
  lemma FlatLoopFills(s: Loop, cfg: Config, step: Step, order: Order, desired: Mode)
    requires Bare(cfg, step, order, desired) && order.side.Sell? && order.sizeUsd > 0.0
    requires s.ledger.units == 0.0 && (desired == s.mode ==> Key(cfg.symbol, step.Bar().timestamp, Base) !in s.seen)
    requires step.inputs.venue(Key(cfg.symbol, step.Bar().timestamp, Base), order)
          == Answer(Report(FILLED, order, Some(Fill(order, 1.0, Costs(0.0, 0.0, 0.0))), None))
    ensures FilledLast(s, After(s, cfg, step), Key(cfg.symbol, step.Bar().timestamp, Base), desired)
  {
    var inp, bar := step.inputs, step.Bar();
    var p := Prepare(s, cfg, inp, bar);
    var events := PrepareWrites(s, cfg, inp, bar);
    FlatPreparation(s, p, cfg, inp, bar, events, desired);
    var q := p.(blockEntry := false);
    SoldNothing(q, cfg, inp, order, bar, desired);
    BareCycle(s, cfg, step, order, desired);
    var b := Submit(q, cfg, inp, Base, order, bar);
    CloseWrites(b.state, cfg, inp, bar, b.tradeId);
    FilledThrough(s, q, b.state, After(s, cfg, step), Key(cfg.symbol, bar.timestamp, Base), desired);
  }

  lemma FilledThrough(s: Loop, q: Loop, b: Loop, t: Loop, key: Key, mode: Mode)
    requires s.log <= q.log && |q.fills| == |s.fills| && FilledLast(q, b, key, mode)
    requires t.log == b.log && t.fills == b.fills && t.mode == b.mode && t.ledger.units == b.ledger.units
    ensures FilledLast(s, t, key, mode)
  {
  }

  lemma FlatPreparation(s: Loop, p: Loop, cfg: Config, inp: Inputs, bar: Bar, events: seq<Event>, desired: Mode)
    requires Prepared(s, p, cfg, inp, bar, events) && s.ledger.units == 0.0
    requires cfg.switching && inp.desired == Some(desired) && inp.rebuilds
    ensures p.mode == desired && p.ledger.units == 0.0 && s.log <= p.log && p.fills == s.fills
    ensures p.seen == if desired == s.mode then s.seen else map[]
  {
    assert s.ledger.Exposure(bar.close) == 0.0;
    assert p.log == s.log + (WatchEvents(s.watch, bar.timestamp) + events);
  }

  lemma TwoCycles(s: Loop, t: Loop, u: Loop, cfg: Config, a: Step, b: Step)
    requires t == After(s, cfg, a) && u == After(t, cfg, b)
    ensures RunSteps(s, cfg, [a, b]) == u
  {
    RunSnoc(s, s, cfg, [], a);
    assert [] + [a] == [a] && [a] + [b] == [a, b];
    RunSnoc(s, t, cfg, [a], b);
  }

  lemma FilledTwice(s: Loop, t: Loop, u: Loop, key: Key, first: Mode, second: Mode)
    requires FilledLast(s, t, key, first) && FilledLast(t, u, key, second)
    ensures exists i, j | 0 <= i < j < |u.log| :: u.log[i].Filled? && u.log[j].Filled? && u.log[i].key == u.log[j].key
  {
    assert u.log[|t.log| - 1] == t.log[|t.log| - 1];
  }

  /** One bar repeated, with a switch to the main network in between: its key is filled in both modes. */
  lemma SwitchFillsAKeyTwice()
    ensures var log := RunSteps(Boot(1_000.0, PaperMode), SellingConfig(),
                            [SellingStep(PaperMode), SellingStep(MainnetMode)]).log;
            exists i, j | 0 <= i < j < |log| :: log[i].Filled? && log[j].Filled? && log[i].key == log[j].key
  {
    var boot, cfg, order := Boot(1_000.0, PaperMode), SellingConfig(), Order(Sell, 10.0, "ETH", 0);
    var t := After(boot, cfg, SellingStep(PaperMode));
    FlatLoopFills(boot, cfg, SellingStep(PaperMode), order, PaperMode);
    FlatLoopFills(t, cfg, SellingStep(MainnetMode), order, MainnetMode);
    var u := After(t, cfg, SellingStep(MainnetMode));
    TwoCycles(boot, t, u, cfg, SellingStep(PaperMode), SellingStep(MainnetMode));
    FilledTwice(boot, t, u, Key("ETH", 0, Base), PaperMode, MainnetMode);
  }

  // ---- one decision row per cycle ----

  ghost predicate OnePerCycle(rows: seq<DecisionRow>) {
    forall i, j | 0 <= i < j < |rows| :: rows[i].cycle != rows[j].cycle
  }

  /** Every row stays, other cycles' rows untouched, and a trade once linked is never replaced. */
  ghost predicate Linked(rows: seq<DecisionRow>, after: seq<DecisionRow>, row: DecisionRow) {
    && |rows| <= |after| <= |rows| + 1
    && (forall i | 0 <= i < |rows| ::
          && after[i].cycle == rows[i].cycle
          && (rows[i].cycle != row.cycle || rows[i].tradeId.Some? ==> after[i] == rows[i]))
    && (|after| > |rows| ==> after[|rows|] == row)
    && exists i: nat :: i < |after| && after[i].cycle == row.cycle
                        && (row.tradeId.Some? ==> after[i].tradeId.Some?)
  }

  lemma {:induction false} RecordDecisionLinks(rows: seq<DecisionRow>, row: DecisionRow)
    requires OnePerCycle(rows)
    ensures OnePerCycle(RecordDecision(rows, row)) && Linked(rows, RecordDecision(rows, row), row)
  {
    var after := RecordDecision(rows, row);
    if rows == [] || rows[0].cycle == row.cycle {
      assert after[0].cycle == row.cycle;
    } else {
      var rest := RecordDecision(rows[1..], row);
      RecordDecisionLinks(rows[1..], row);
      assert after == [rows[0]] + rest;
      var k: nat :| k < |rest| && rest[k].cycle == row.cycle && (row.tradeId.Some? ==> rest[k].tradeId.Some?);
      assert after[k + 1] == rest[k];
      forall j | 0 < j < |after|
        ensures after[j].cycle != rows[0].cycle
      {
        assert after[j] == rest[j - 1];
        if j - 1 < |rows[1..]| {
          assert rest[j - 1].cycle == rows[j].cycle;
        }
      }
    }
  }

  lemma {:induction false} MovesKeepOnePerCycle(s: Loop, cfg: Config, inp: Inputs, bar: Bar, moves: seq<Move>)
    requires OnePerCycle(s.store.decisions)
    ensures OnePerCycle(DoAll(s, cfg, inp, bar, moves).store.decisions)
  {
    if moves != [] {
      var before, m := DoAll(s, cfg, inp, bar, moves[..|moves| - 1]), moves[|moves| - 1];
      MovesKeepOnePerCycle(s, cfg, inp, bar, moves[..|moves| - 1]);
      if m.AskMove? {
        SubmitWrites(before, cfg, inp, m.channel, m.order, bar);
      } else if m.CloseMove? {
        RecordDecisionLinks(before.store.decisions,
                            DecisionRow(Key(cfg.symbol, bar.timestamp, Base), bar.timestamp, m.tradeId));
      }
    }
  }

  lemma CycleKeepsOnePerCycle(s: Loop, t: Loop, cfg: Config, step: Step)
    requires Cycles(s, t, cfg, step) && OnePerCycle(s.store.decisions)
    ensures OnePerCycle(t.store.decisions)
  {
    var p, events, moves :| CycleVia(s, t, cfg, step, p, events, moves);
    MovesKeepOnePerCycle(p, cfg, step.inputs, step.Bar(), moves);
  }

  /** However often cycles repeat, the log holds at most one decision row per cycle id. */
  lemma {:induction false} OneDecisionPerCycle(initial: real, mode: Mode, cfg: Config, steps: seq<Step>)
    ensures OnePerCycle(RunSteps(Boot(initial, mode), cfg, steps).store.decisions)
    decreases |steps|
  {
    if steps != [] {
      var init, last := steps[..|steps| - 1], steps[|steps| - 1];
      OneDecisionPerCycle(initial, mode, cfg, init);
      var s := RunSteps(Boot(initial, mode), cfg, init);
      CycleCycles(s, cfg, last);
      CycleKeepsOnePerCycle(s, RunSteps(Boot(initial, mode), cfg, steps), cfg, last);
    }
  }
}
