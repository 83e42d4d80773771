/**
 The loop object itself: the same cycle as `Loops.Cycle`, performed by methods that update the ledger,
 the executor and the loop's own fields in place, plus the drivers that feed it and recover it.
 */
module DecisionLoops {
  import opened Market
  import opened Ledgers
  import opened Executors
  import opened Loops
  import opened Ordering
  import opened Recovery

  class ReplayFeed {
    const bars: seq<Bar>
    var cursor: nat

    constructor (bars: seq<Bar>, warmup: int)
      ensures this.bars == bars && cursor == if warmup > 0 then warmup else 0
    {
      this.bars := bars;
      cursor := if warmup > 0 then warmup else 0;
    }

    /** The k-th call after the warm-up exposes exactly the first cursor + k bars, then nothing. */
    method Next() returns (history: Option<seq<Bar>>)
      modifies this
      ensures old(cursor) >= |bars| ==> history.None? && cursor == old(cursor)
      ensures old(cursor) < |bars| ==> cursor == old(cursor) + 1 && history == Some(bars[..cursor])
    {
      if cursor >= |bars| {
        return None;
      }
      cursor := cursor + 1;
      return Some(bars[..cursor]);
    }
  }

  class DecisionLoop {
    const cfg: Config
    var ledger: LedgerState
    var executor: VenueExecutor
    var mode: Mode
    var pendingMode: Option<Mode>
    var consecutiveFailures: nat
    var firstFailure: Option<int>
    var warnSent: bool
    var blockEntry: bool
    var activityDay: int
    var tradesToday: nat
    var entryFill: Option<Fill>
    var fills: seq<Fill>
    var trades: seq<Trade>
    var equityCurve: seq<real>
    var equityTs: seq<int>
    var store: Store
    var log: seq<Event>

    constructor (cfg: Config, initial: real, mode: Mode)
      ensures this.cfg == cfg && View() == Boot(initial, mode)
      ensures fresh(ledger) && fresh(executor)
    {
      this.cfg := cfg;
      ledger := new LedgerState(initial);
      executor := new VenueExecutor();
      this.mode, pendingMode := mode, None;
      consecutiveFailures, firstFailure, warnSent := 0, None, false;
      blockEntry, activityDay, tradesToday, entryFill := false, -1, 0, None;
      fills, trades, equityCurve, equityTs := [], [], [], [];
      store, log := Store([], [], []), [];
    }

    function View(): Loop
      reads this, ledger, executor
    {
      Loop(ledger.View(), executor.seen, mode, pendingMode, Watch(consecutiveFailures, firstFailure, warnSent),
           blockEntry, activityDay, tradesToday, entryFill, fills, trades, equityCurve, equityTs, store, log)
    }

    method RollOverDay(bar: Bar)
      modifies this, ledger
      ensures View() == RollOver(old(View()), bar)
      ensures ledger == old(ledger) && executor == old(executor)
    {
      ledger.Roll(bar.timestamp, bar.open);
      var day := bar.timestamp / DAY_MS;
      if day != activityDay {
        if activityDay != -1 {
          var _ := ledger.MarkAt(bar.close);
        }
        activityDay := day;
        tradesToday := 0;
        var _ := ledger.MarkAt(bar.open);
      }
    }

    method CheckFailures(now: int)
      modifies this
      ensures View() == CheckSustainedFailure(old(View()), now)
      ensures ledger == old(ledger) && executor == old(executor)
    {
      if firstFailure.None? {
        return;
      }
      var elapsed := now - firstFailure.value;
      if elapsed < WARN_MS {
        return;
      }
      if !warnSent {
        log := log + [FailureWarned(now)];
        warnSent := true;
      }
      if elapsed >= HALT_MS {
        log := log + [AutoHalted(now, firstFailure.value)];
        firstFailure := None;
        warnSent := false;
      }
    }

    /** Still exposed: remember the target and audit it once. */
    method DeferSwitch(target: Mode)
      modifies this
      ensures View() == if old(pendingMode) == Some(target) then old(View())
                        else Note(old(View()), ModeDeferred(target)).(pending := Some(target))
      ensures ledger == old(ledger) && executor == old(executor)
    {
      if pendingMode != Some(target) {
        pendingMode := Some(target);
        log := log + [ModeDeferred(target)];
      }
    }

    /** A new executor with an empty table takes over. */
    method RebuildExecutor()
      modifies this`executor
      ensures View() == old(View()).(seen := map[]) && fresh(executor)
    {
      executor := new VenueExecutor();
    }

    method SwitchTo(target: Mode)
      modifies this
      ensures View() == Note(old(View()), ModeSwitched(target)).(seen := map[], mode := target, pending := None)
      ensures ledger == old(ledger) && fresh(executor)
    {
      RebuildExecutor();
      mode := target;
      pendingMode := None;
      log := log + [ModeSwitched(target)];
    }

    method SyncTradingMode(inp: Inputs, close: real)
      modifies this
      ensures View() == SyncMode(old(View()), cfg, inp, close)
      ensures ledger == old(ledger) && (executor == old(executor) || fresh(executor))
    {
      if !cfg.switching {
        return;
      }
      if inp.desired.None? || inp.desired.value == mode {
        pendingMode := None;
        return;
      }
      if Worth(ledger.units, close) > EXPOSURE_EPSILON {
        DeferSwitch(inp.desired.value);
        return;
      }
      if !inp.rebuilds {
        log := log + [RebuildFailed(inp.desired.value)];
        return;
      }
      SwitchTo(inp.desired.value);
    }

    method CountFill(fill: Fill) returns (realized: real)
      modifies this, ledger
      ensures View() == Booked(old(View()), fill) && realized == Realized(old(ledger.View()), fill)
      ensures ledger == old(ledger) && executor == old(executor)
    {
      realized := ledger.ApplyFill(fill);
      consecutiveFailures, firstFailure, warnSent := 0, None, false;
      tradesToday := tradesToday + 1;
      fills := fills + [fill];
    }

    method PairRoundTrip(fill: Fill, realized: real, bar: Bar, inp: Inputs)
      modifies this, ledger
      ensures View() == PairFill(old(View()), fill, realized, bar, inp)
      ensures ledger == old(ledger) && executor == old(executor)
    {
      if fill.order.side.Buy? {
        if entryFill.None? {
          entryFill := Some(fill);
          if !inp.autopilot.Disabled? {
            var _ := ledger.MarkAt(bar.close);
          }
        }
      } else if entryFill.Some? {
        trades := trades + [Trade(entryFill.value, fill, realized)];
        entryFill := None;
      }
    }

    method RecordRows(report: Report, fill: Fill, realized: real, bar: Bar, inp: Inputs) returns (tradeId: Option<nat>)
      modifies this
      ensures Handled(View(), tradeId) == RecordTrade(old(View()), report, fill, realized, bar, inp)
      ensures ledger == old(ledger) && executor == old(executor)
    {
      tradeId := None;
      if inp.recorded {
        var id := |store.trades|;
        tradeId := Some(id);
        store := Store(store.trades + [RowOf(report, fill, mode, bar.timestamp)],
                       store.ledger + [LedgerRow(id, realized, ledger.peakEquity, bar.timestamp)],
                       store.decisions);
      }
    }

    method BookFill(key: Key, report: Report, bar: Bar, inp: Inputs) returns (tradeId: Option<nat>)
      requires report.IsFill()
      modifies this, ledger
      ensures Handled(View(), tradeId) == HandleFill(old(View()), key, report, report.fill.value, bar, inp)
      ensures ledger == old(ledger) && executor == old(executor)
    {
      var fill := report.fill.value;
      var realized := CountFill(fill);
      PairRoundTrip(fill, realized, bar, inp);
      log := log + [Filled(key, fill, mode)];
      tradeId := RecordRows(report, fill, realized, bar, inp);
    }

    method RecordFailure(key: Key, at: int)
      modifies this
      ensures View() == CountFailure(old(View()), key, at)
      ensures ledger == old(ledger) && executor == old(executor)
    {
      log := log + [Failed(key, at)];
      consecutiveFailures := consecutiveFailures + 1;
      if firstFailure.None? {
        firstFailure := Some(at);
      }
      if consecutiveFailures >= ALERT_THRESHOLD {
        log := log + [FailureAlert];
        consecutiveFailures := 0;
      }
    }

    method Handle(key: Key, report: Report, bar: Bar, inp: Inputs) returns (tradeId: Option<nat>)
      modifies this, ledger
      ensures Handled(View(), tradeId) == HandleExecution(old(View()), key, report, bar, inp)
      ensures ledger == old(ledger) && executor == old(executor)
    {
      tradeId := None;
      if report.IsFill() {
        tradeId := BookFill(key, report, bar, inp);
      } else if report.status.DUPLICATE? || report.status.REJECTED? {
        log := log + [Blocked(key)];
      } else if report.status.FAILED? {
        RecordFailure(key, report.order.timestamp);
      } else if report.status.SIMULATED? {
        log := log + [Simulated(key)];
      }
    }

    method SubmitOrder(channel: Channel, order: Order, bar: Bar, inp: Inputs)
      returns (tradeId: Option<nat>, raised: bool)
      modifies this, ledger, executor
      ensures Traded(View(), tradeId, raised) == Submit(old(View()), cfg, inp, channel, order, bar)
      ensures ledger == old(ledger) && executor == old(executor)
    {
      var key := Key(cfg.symbol, bar.timestamp, channel);
      log := log + [Asked(key)];
      var reply := executor.Execute(order, key, inp.venue(key, order));
      if reply.Raises? {
        return None, true;
      }
      tradeId := Handle(key, reply.report, bar, inp);
      return tradeId, false;
    }

    method FinaliseCycle(bar: Bar, inp: Inputs, tradeId: Option<nat>)
      modifies this, ledger
      ensures View() == Finalise(old(View()), cfg, inp, bar, tradeId)
      ensures ledger == old(ledger) && executor == old(executor)
    {
      var equity := ledger.MarkAt(bar.close);
      if inp.recorded {
        var row := DecisionRow(Key(cfg.symbol, bar.timestamp, Base), bar.timestamp, tradeId);
        store := Store(store.trades, store.ledger, RecordDecision(store.decisions, row));
      }
      equityCurve := equityCurve + [equity];
      equityTs := equityTs + [bar.timestamp];
    }

    method ActivityFloor(bar: Bar, inp: Inputs) returns (tradeId: Option<nat>, raised: bool)
      modifies this, ledger, executor
      ensures Traded(View(), tradeId, raised) == ActivityTrade(old(View()), cfg, inp, bar)
      ensures ledger == old(ledger) && executor == old(executor)
    {
      var order := ActivityOrder(View(), cfg, inp, bar);
      if order.None? {
        return None, false;
      }
      if order.value.side.Buy? {
        var _ := ledger.MarkAt(bar.close);
      }
      tradeId, raised := SubmitOrder(Activity, order.value, bar, inp);
    }

    method ActivityFloorAndClose(bar: Bar, inp: Inputs, tradeId: Option<nat>) returns (completed: bool)
      modifies this, ledger, executor
      ensures Cycled(View(), completed) == ActivityAndClose(old(View()), cfg, inp, bar, tradeId)
      ensures ledger == old(ledger) && executor == old(executor)
    {
      var _, raised := ActivityFloor(bar, inp);
      if raised {
        return false;
      }
      if inp.watching {
        var _ := ledger.MarkAt(bar.close);
      }
      FinaliseCycle(bar, inp, tradeId);
      return true;
    }

    method DecideAndClose(history: History, inp: Inputs) returns (completed: bool)
      modifies this, ledger, executor
      ensures Cycled(View(), completed) == MainPath(old(View()), cfg, inp, history)
      ensures ledger == old(ledger) && executor == old(executor)
    {
      var bar := history[|history| - 1];
      var order := cfg.strategy(StampSentiment(history, inp.social));
      if order.Some? && blockEntry && order.value.side.Buy? {
        order := None;
      }
      if order.Some? {
        order := inp.gate(order.value);
      }
      var tradeId: Option<nat> := None;
      if order.Some? {
        var raised;
        tradeId, raised := SubmitOrder(Base, order.value, bar, inp);
        if raised {
          return false;
        }
      }
      completed := ActivityFloorAndClose(bar, inp, tradeId);
    }

    method KolOverlay(history: History, inp: Inputs) returns (completed: bool)
      modifies this, ledger, executor
      ensures Cycled(View(), completed) == KolPath(old(View()), cfg, inp, history)
      ensures ledger == old(ledger) && executor == old(executor)
    {
      var bar := history[|history| - 1];
      if inp.kolOrder.Some? {
        var _ := ledger.MarkAt(bar.close);
        var tradeId, raised := SubmitOrder(Kol, inp.kolOrder.value, bar, inp);
        if !raised {
          FinaliseCycle(bar, inp, tradeId);
          return true;
        }
      } else if inp.kolRefused {
        var _ := ledger.MarkAt(bar.close);
      }
      completed := DecideAndClose(history, inp);
    }

    method FollowVerdict(history: History, inp: Inputs) returns (completed: bool)
      modifies this, ledger, executor
      ensures Cycled(View(), completed) == Judged(old(View()), cfg, inp, history)
      ensures ledger == old(ledger) && executor == old(executor)
    {
      var bar := history[|history| - 1];
      var exposure := Worth(ledger.units, bar.close);
      if inp.autopilot.Flatten? && exposure > EXPOSURE_EPSILON {
        var order := Order(Sell, exposure, cfg.symbol, bar.timestamp);
        var tradeId, raised := SubmitOrder(Autopilot, order, bar, inp);
        if raised {
          return false;
        }
        FinaliseCycle(bar, inp, tradeId);
        return true;
      }
      if inp.autopilot.HaltDay? {
        FinaliseCycle(bar, inp, None);
        return true;
      }
      completed := KolOverlay(history, inp);
    }

    method AutopilotOverlay(history: History, inp: Inputs) returns (completed: bool)
      modifies this, ledger, executor
      ensures Cycled(View(), completed) == AutopilotPath(old(View()), cfg, inp, history)
      ensures ledger == old(ledger) && executor == old(executor)
    {
      if inp.autopilot.Disabled? {
        blockEntry := false;
        completed := KolOverlay(history, inp);
      } else {
        var _ := ledger.MarkAt(history[|history| - 1].close);
        blockEntry := inp.autopilot.BlockEntry?;
        completed := FollowVerdict(history, inp);
      }
    }

    /** One cycle; false if an exception escaped it before it was finalised. */
    method RunCycle(history: History, inp: Inputs) returns (completed: bool)
      modifies this, ledger, executor
      ensures Cycled(View(), completed) == Cycle(old(View()), cfg, inp, history)
      ensures ledger == old(ledger) && (executor == old(executor) || fresh(executor))
    {
      var bar := history[|history| - 1];
      RollOverDay(bar);
      CheckFailures(bar.timestamp);
      SyncTradingMode(inp, bar.close);
      if !inp.floor.NoFloor? {
        var _ := ledger.MarkAt(bar.close);
      }
      assert View() == Prepare(old(View()), cfg, inp, bar);
      if inp.floor.FloorHit? || inp.halted {
        FinaliseCycle(bar, inp, None);
        return true;
      }
      completed := AutopilotOverlay(history, inp);
    }

    /** The next cycle of a run that has completed so far. */
    method Advance(history: History, inp: Inputs, ghost start: Loop, ghost done: seq<Step>) returns (completed: bool)
      requires RanTo(start, cfg, done, Cycled(View(), true))
      modifies this, ledger, executor
      ensures ledger == old(ledger) && (executor == old(executor) || fresh(executor))
      ensures RanTo(start, cfg, done + [Step(history, inp)], Cycled(View(), completed))
    {
      ghost var before := View();
      completed := RunCycle(history, inp);
      RunOneMore(start, cfg, done, before, Step(history, inp), Cycled(View(), completed));
    }

    /** The next cycle of a run, if the feed still has a bar for it. */
    method AdvanceOn(feed: ReplayFeed, inp: Inputs, ghost env: nat -> Inputs, ghost start: Loop, ghost from: nat,
                     ghost done: seq<Step>)
      returns (fed: bool, completed: bool, ghost steps: seq<Step>)
      requires RanTo(start, cfg, done, Cycled(View(), true))
      requires feed.cursor == from + |done| && FedBy(feed.bars, from, done, env) && inp == env(|done|)
      modifies this, ledger, executor, feed
      ensures ledger == old(ledger) && (executor == old(executor) || fresh(executor))
      ensures fed <==> old(feed.cursor) < |feed.bars|
      ensures if fed then |steps| == |done| + 1 else steps == done && completed
      ensures feed.cursor == from + |steps| && FedBy(feed.bars, from, steps, env)
      ensures RanTo(start, cfg, steps, Cycled(View(), completed))
    {
      var history := feed.Next();
      if history.None? {
        return false, true, done;
      }
      FedOneMore(feed.bars, from, done, env);
      completed := Advance(history.value, inp, start, done);
      fed, steps := true, done + [Step(history.value, inp)];
    }

    /** Drives a replay feed to exhaustion or for `maxCycles`; an exception that escapes a cycle ends the run. */
    method Run(feed: ReplayFeed, maxCycles: Option<nat>, env: nat -> Inputs)
      returns (cycles: nat, completed: bool, ghost steps: seq<Step>)
      modifies this, ledger, executor, feed
      ensures RanTo(old(View()), cfg, steps, Cycled(View(), completed))
      ensures |steps| == cycles && FedBy(feed.bars, old(feed.cursor), steps, env)
      ensures feed.cursor == old(feed.cursor) + cycles
      ensures completed ==> feed.cursor >= |feed.bars| || maxCycles == Some(cycles)
      ensures maxCycles.Some? ==> cycles <= maxCycles.value
    {
      ghost var start := View();
      cycles, completed, steps := 0, true, [];
      while maxCycles.None? || cycles < maxCycles.value
        invariant completed && feed.cursor == old(feed.cursor) + cycles
        invariant maxCycles.Some? ==> cycles <= maxCycles.value
        invariant ledger == old(ledger) && (executor == old(executor) || fresh(executor))
        invariant |steps| == cycles && FedBy(feed.bars, old(feed.cursor), steps, env)
        invariant RanTo(start, cfg, steps, Cycled(View(), true))
        decreases |feed.bars| - feed.cursor
      {
        var fed;
        fed, completed, steps := AdvanceOn(feed, env(cycles), env, start, old(feed.cursor), steps);
        if !fed {
          break;
        }
        cycles := cycles + 1;
        if !completed {
          return;
        }
      }
    }

    method MarkExecuted(rows: seq<DecisionRow>)
      modifies executor
      ensures executor.seen == MarkTraded(old(executor.seen), rows)
    {
      for i := 0 to |rows|
        invariant executor.seen == MarkTraded(old(executor.seen), rows[..i])
      {
        assert rows[..i + 1][..i] == rows[..i];
        if rows[i].tradeId.Some? {
          executor.Mark(rows[i].cycle);
        }
      }
      assert rows[..|rows|] == rows;
    }

    /** Rebuild ledger and idempotency table from the event log; a no-op when it is empty. */
    method Recover(events: Store) returns (recovered: bool)
      modifies this, executor
      ensures recovered <==> events.trades != [] || events.decisions != []
      ensures executor == old(executor) && (if recovered then fresh(ledger) else ledger == old(ledger))
      ensures View() == if !recovered then old(View())
                        else old(View()).(ledger := RecoveredLedger(events, old(View()).ledger.initial),
                                          seen := RecoveredSeen(events, old(View()).seen))
    {
      var newest := Newest(events.trades, TradeTime, RECENT);
      var decisions := Newest(events.decisions, DecisionTime, RECENT);
      NewestEmpty(events.trades, TradeTime, RECENT);
      NewestEmpty(events.decisions, DecisionTime, RECENT);
      if newest == [] && decisions == [] {
        return false;
      }
      MarkExecuted(decisions);
      var rebuilt := Replayed(ledger.initialCapital, Reverse(newest));
      var latest := Newest(events.ledger, LedgerTime, 1);
      if latest != [] && latest[0].peak != 0.0 {
        rebuilt.peakEquity := Max(rebuilt.peakEquity, latest[0].peak);
      }
      ledger := rebuilt;
      return true;
    }
  }

  /** A fresh ledger with the trade rows applied in order. */
  method Replayed(initial: real, rows: seq<TradeRow>) returns (rebuilt: LedgerState)
    ensures fresh(rebuilt) && rebuilt.View() == ApplyAll(Open(initial), RowFills(rows))
  {
    rebuilt := new LedgerState(initial);
    for i := 0 to |rows|
      invariant fresh(rebuilt)
      invariant rebuilt.View() == ApplyAll(Open(initial), RowFills(rows[..i]))
    {
      assert RowFills(rows[..i + 1])[..i] == RowFills(rows[..i]);
      var _ := rebuilt.ApplyFill(RowFill(rows[i]));
    }
    assert rows[..|rows|] == rows;
  }
}
