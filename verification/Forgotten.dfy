/**
 What a recovered process does not know: cycles beyond the newest 500 decisions, the trades of the day, and the open
 round trip.
 */
module Forgotten {
  import opened Market
  import opened Ledgers
  import opened Executors
  import opened Loops
  import opened LoopMoves
  import opened Ordering
  import opened Recovery
  import opened Lives
  import opened ModeSafety
  import opened ActivityDay
  import opened LoopOnce
  import opened KeyTables
  import opened Parity

  /** A cycle that traded is known again after recovery if and only if its row is among the newest 500 decisions. */
  lemma OldCyclesAreResent(initial: real, mode: Mode, cfg: Config, before: seq<Step>, i: nat, order: Order)
    requires InOrder(before)
    requires i < |RunSteps(Boot(initial, mode), cfg, before).store.decisions|
    requires RunSteps(Boot(initial, mode), cfg, before).store.decisions[i].tradeId.Some?
    ensures var store := RunSteps(Boot(initial, mode), cfg, before).store;
            var key := store.decisions[i].cycle;
            CheckDupe(RecoveredSeen(store, map[]), key, order).None? <==> i + RECENT < |store.decisions|
  {
    var at := if before == [] then 0 else before[0].Bar().timestamp;
    var now := if before == [] then 0 else before[|before| - 1].Bar().timestamp;
    RunKeepsKeysPast(Boot(initial, mode), cfg, before, at, now);
    OneDecisionPerCycle(initial, mode, cfg, before);
    MarkedIffRecent(RunSteps(Boot(initial, mode), cfg, before).store, now, i);
  }

  /**
   A cycle whose row is listed with a trade is answered by the recovered table until the loop switches its mode, and
   the new executor's table knows the key only if it is filled or simulated again.
   */
  lemma KnownUntilSwitch(store: Store, initial: real, boot: Mode, cfg: Config, after: seq<Step>, row: DecisionRow,
                         order: Order)
    requires row in Newest(store.decisions, DecisionTime, RECENT) && row.tradeId.Some?
    requires forall step | step in after :: ProperVenue(step.inputs)
    ensures var t := RunSteps(Started(store, initial, boot), cfg, after);
            CheckDupe(t.seen, row.cycle, order).None? <==> !NoSwitch(t.log) && !TakenSinceSwitch(t.log, row.cycle)
  {
    var start := Started(store, initial, boot);
    MarkedExactly(map[], Newest(store.decisions, DecisionTime, RECENT), row.cycle);
    RunKeepsTable(start, cfg, after);
    DupeIffTaken(start.seen, RunSteps(start, cfg, after), row.cycle, order);
  }

  lemma MarkedIffRecent(store: Store, now: int, i: nat)
    requires DatedRows(store.decisions, now) && OnePerCycle(store.decisions)
    requires i < |store.decisions| && store.decisions[i].tradeId.Some?
    ensures var key, seen := store.decisions[i].cycle, RecoveredSeen(store, map[]);
            (key in seen <==> |store.decisions| <= i + RECENT) && (key in seen ==> seen[key].IsRemembered())
  {
    NewestAreLast(store.decisions, DecisionTime, RECENT);
    MarkedIffListed(store.decisions, Newest(store.decisions, DecisionTime, RECENT), i);
  }

  lemma MarkedIffListed(rows: seq<DecisionRow>, newest: seq<DecisionRow>, i: nat)
    requires OnePerCycle(rows) && i < |rows| && rows[i].tradeId.Some?
    requires forall r :: r in newest <==> exists k | 0 <= k < |rows| && |rows| <= k + RECENT :: rows[k] == r
    ensures var key, seen := rows[i].cycle, MarkTraded(map[], newest);
            (key in seen <==> |rows| <= i + RECENT) && (key in seen ==> seen[key].IsRemembered())
  {
    MarkedExactly(map[], newest, rows[i].cycle);
    if |rows| <= i + RECENT {
      assert rows[i] in newest;
    } else {
      forall j | 0 <= j < |newest|
        ensures newest[j].cycle != rows[i].cycle
      {
        assert newest[j] in newest;
        var k :| 0 <= k < |rows| && |rows| <= k + RECENT && rows[k] == newest[j];
      }
    }
  }

  /** Only the activity rule can ask the executor in this cycle. */
  predicate Silent(cfg: Config, step: Step) {
    var inp, order := step.inputs, cfg.strategy(StampSentiment(step.history, step.inputs.social));
    && !inp.floor.FloorHit? && !inp.halted && !inp.autopilot.Flatten? && !inp.autopilot.HaltDay? && inp.kolOrder.None?
    && (order.None? || (inp.autopilot.BlockEntry? && order.value.side.Buy?) || inp.gate(order.value).None?)
  }

  /** Marks and the entry gate aside, nothing happens before the activity rule is asked. */
  ghost predicate OnlyMarked(p: Loop, q: Loop) {
    q == p.(ledger := q.ledger, blockEntry := q.blockEntry) && SameBooks(p.ledger, q.ledger)
  }

  lemma SilentCycle(s: Loop, cfg: Config, step: Step) returns (q: Loop)
    requires Silent(cfg, step)
    ensures OnlyMarked(Prepare(s, cfg, step.inputs, step.Bar()), q)
    ensures After(s, cfg, step) == ActivityAndClose(q, cfg, step.inputs, step.Bar(), None).state
  {
    var inp, bar, history := step.inputs, step.Bar(), step.history;
    var p := Prepare(s, cfg, inp, bar);
    var gated := if inp.autopilot.Disabled? then p.(blockEntry := false)
                 else MarkLoop(p, bar.close).(blockEntry := inp.autopilot.BlockEntry?);
    MarkRaisesPeak(p.ledger, bar.close);
    MarkRaisesPeak(gated.ledger, bar.close);
    q := if inp.kolRefused then MarkLoop(gated, bar.close) else gated;
    assert GatedOrder(q, cfg, inp, history).None?;
    assert AutopilotPath(p, cfg, inp, history) == KolPath(gated, cfg, inp, history);
  }

  ghost predicate ForcedIn(a: Loop, b: Loop)
    requires a.log <= b.log
  {
    exists e | e in Since(a, b) :: Forced(e)
  }

  lemma ForcedFirst(a: Loop, b: Loop)
    requires |a.log| < |b.log| && a.log <= b.log && Forced(b.log[|a.log|])
    ensures ForcedIn(a, b)
  {
    assert Since(a, b)[0] == b.log[|a.log|];
  }

  /** The rule asks exactly when it has an order. */
  lemma ActivityTradeAsks(q: Loop, cfg: Config, inp: Inputs, bar: Bar)
    ensures var t := ActivityTrade(q, cfg, inp, bar).state;
            q.log <= t.log && (ForcedIn(q, t) <==> ActivityOrder(q, cfg, inp, bar).Some?)
  {
    var order := ActivityOrder(q, cfg, inp, bar);
    var t := ActivityTrade(q, cfg, inp, bar).state;
    if order.Some? {
      var asking := if order.value.side.Buy? then MarkLoop(q, bar.close) else q;
      SubmitWrites(asking, cfg, inp, Activity, order.value, bar);
      AskedFirst(asking, t, Key(cfg.symbol, bar.timestamp, Activity), order.value, inp);
      ForcedFirst(q, t);
    } else {
      assert Since(q, t) == [];
    }
  }

  lemma AskedFirst(a: Loop, b: Loop, key: Key, order: Order, inp: Inputs)
    requires Wrote(a, b, key, order, inp)
    ensures a.log <= b.log && |a.log| < |b.log| && b.log[|a.log|] == Asked(key)
  {
  }

  lemma ActivityAsks(q: Loop, cfg: Config, inp: Inputs, bar: Bar)
    ensures var t := ActivityAndClose(q, cfg, inp, bar, None).state;
            q.log <= t.log && (ForcedIn(q, t) <==> ActivityOrder(q, cfg, inp, bar).Some?)
  {
    ActivityTradeAsks(q, cfg, inp, bar);
  }

  /** What is not forced in between does not matter. */
  lemma ForcedLater(s: Loop, p: Loop, q: Loop, t: Loop)
    requires s.log <= p.log && p.log == q.log && q.log <= t.log && forall e | e in Since(s, p) :: !Forced(e)
    ensures ForcedIn(s, t) <==> ForcedIn(q, t)
  {
    assert Since(s, t) == Since(s, p) + Since(q, t);
  }

  lemma SilentCycleForces(s: Loop, cfg: Config, step: Step)
    requires Silent(cfg, step)
    ensures var t := After(s, cfg, step);
            && s.log <= t.log
            && (ForcedIn(s, t) <==>
                  ActivityOrder(Prepare(s, cfg, step.inputs, step.Bar()), cfg, step.inputs, step.Bar()).Some?)
  {
    var inp, bar := step.inputs, step.Bar();
    var p := Prepare(s, cfg, inp, bar);
    PreparedQuietly(s, p, cfg, step);
    var q := SilentCycle(s, cfg, step);
    ActivityAsks(q, cfg, inp, bar);
    SameActivityOrder(p, q, cfg, inp, bar);
    ForcedLater(s, p, q, After(s, cfg, step));
  }

  lemma SameActivityOrder(p: Loop, q: Loop, cfg: Config, inp: Inputs, bar: Bar)
    requires OnlyMarked(p, q)
    ensures ActivityOrder(q, cfg, inp, bar) == ActivityOrder(p, cfg, inp, bar)
  {
  }

  lemma PreparedQuietly(s: Loop, p: Loop, cfg: Config, step: Step)
    requires p == Prepare(s, cfg, step.inputs, step.Bar())
    ensures s.log <= p.log && forall e | e in Since(s, p) :: !Forced(e)
  {
    var events := PrepareWrites(s, cfg, step.inputs, step.Bar());
    QuietPreparation(s, p, cfg, step, events);
  }

  /** When the rule's other conditions hold. */
  predicate RuleApplies(cfg: Config, inp: Inputs, bar: Bar, held: real) {
    && cfg.activityFloor && (bar.timestamp / HOUR_MS) % 24 >= cfg.activityHour
    && inp.allowlisted && (held > 0.0 || inp.guardrails)
    && (cfg.activityUsd > 0.0 || (0.0 < held <= cfg.activityUsd))
  }

  /**
   The restarted process counts no trade yet: in a cycle where nothing else is asked, on a day that has already
   traded, the uninterrupted loop forces nothing and the restarted one asks for the minimal trade if and only if the
   rule's other conditions hold.
   */
  lemma RestartCanForceASecondTrade(initial: real, cfg: Config, processes: seq<Process>, boot: Mode, step: Step)
    requires ReliableLife(initial, cfg, processes) && Silent(cfg, step)
    requires |Life(initial, cfg, processes).store.trades| <= RECENT
    requires CarriedOver(Life(initial, cfg, processes), Day(step)) > 0
    ensures var s := Life(initial, cfg, processes);
            SecondTrade(s, Started(s.store, initial, boot), cfg, step)
  {
    var s := Life(initial, cfg, processes);
    EveryRecoveryRebuildsLedger(initial, cfg, processes);
    ForcedAfterRestart(s, Started(s.store, initial, boot), cfg, step);
  }

  /** From `s` the cycle forces nothing, and from `r` it does exactly when the rule applies. */
  ghost predicate SecondTrade(s: Loop, r: Loop, cfg: Config, step: Step) {
    var live, back := After(s, cfg, step), After(r, cfg, step);
    && s.log <= live.log && !ForcedIn(s, live)
    && r.log <= back.log
    && (ForcedIn(r, back) <==> RuleApplies(cfg, step.inputs, step.Bar(), s.ledger.Exposure(step.Bar().close)))
  }

  lemma ForcedAfterRestart(s: Loop, r: Loop, cfg: Config, step: Step)
    requires Silent(cfg, step)
    requires CarriedOver(s, Day(step)) > 0 && r.tradesToday == 0 && r.ledger.units == s.ledger.units
    ensures SecondTrade(s, r, cfg, step)
  {
    var inp, bar := step.inputs, step.Bar();
    var back := Prepare(r, cfg, inp, bar);
    CycleCycles(s, cfg, step);
    CycleKeepsDayLaw(s, After(s, cfg, step), cfg, step);
    SilentCycleForces(r, cfg, step);
    var fs := PrepareWrites(r, cfg, inp, bar);
    assert back.ledger.Exposure(bar.close) == s.ledger.Exposure(bar.close);
    ForcedTradeIsMinimal(back, cfg, inp, bar);
  }

  /** The open round trip is forgotten: the sale that would close it is paired with nothing. */
  lemma OpenRoundTripIsForgotten(s: Loop, initial: real, boot: Mode, key: Key, report: Report, fill: Fill, bar: Bar,
                                 inp: Inputs)
    requires fill.order.side.Sell?
    ensures var live := HandleFill(s, key, report, fill, bar, inp).state;
            var back := HandleFill(Started(s.store, initial, boot), key, report, fill, bar, inp).state;
            && back.trades == [] && back.entry.None? && live.entry.None?
            && (|live.trades| == |s.trades| + 1 <==> s.entry.Some?)
  {
    FillPairs(s, key, report, fill, bar, inp);
    FillPairs(Started(s.store, initial, boot), key, report, fill, bar, inp);
  }
}
