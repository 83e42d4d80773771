/**
 The trading-mode toggle over whole runs: real and paper money never mix within one position.
 */
module ModeSafety {
  import opened Market
  import opened Executors
  import opened Loops
  import opened LoopMoves

  /** The events between two states of one run. */
  function Since(a: Loop, b: Loop): seq<Event>
    requires a.log <= b.log
  {
    b.log[|a.log|..]
  }

  predicate IsTradeEvent(e: Event, mode: Mode) {
    || e.Asked? || e.Simulated? || e.Blocked? || e.Failed? || e.FailureAlert?
    || (e.Filled? && e.mode == mode)
  }

  /** From `a` to `b` nothing but trading under a's mode happened. */
  ghost predicate OnlyTraded(a: Loop, b: Loop) {
    && b.mode == a.mode && b.pending == a.pending
    && a.log <= b.log
    && (forall e | e in Since(a, b) :: IsTradeEvent(e, a.mode))
    && a.store.trades <= b.store.trades
    && (forall r | r in b.store.trades[|a.store.trades|..] :: r.mode == a.mode)
  }

  lemma OnlyTradedTransitive(a: Loop, b: Loop, c: Loop)
    requires OnlyTraded(a, b) && OnlyTraded(b, c)
    ensures OnlyTraded(a, c)
  {
    assert Since(a, c) == Since(a, b) + Since(b, c);
    assert c.store.trades[|a.store.trades|..]
        == b.store.trades[|a.store.trades|..] + c.store.trades[|b.store.trades|..];
  }

  lemma MoveOnlyTrades(s: Loop, cfg: Config, inp: Inputs, bar: Bar, m: Move)
    ensures OnlyTraded(s, Do(s, cfg, inp, bar, m))
  {
    if m.AskMove? {
      SubmitWrites(s, cfg, inp, m.channel, m.order, bar);
      SubmissionOnlyTrades(s, Do(s, cfg, inp, bar, m), Key(cfg.symbol, bar.timestamp, m.channel), m.order, inp);
    }
  }

  lemma SubmissionOnlyTrades(a: Loop, b: Loop, key: Key, order: Order, inp: Inputs)
    requires Wrote(a, b, key, order, inp)
    ensures OnlyTraded(a, b)
  {
    var added := b.log[|a.log|..];
    assert b.log == a.log + added && |added| <= 3;
    if WroteFill(a, b, key, order, inp) && inp.recorded {
      var row := b.store.trades[|a.store.trades|];
      assert b.store.trades == a.store.trades + [row] && row.mode == a.mode;
    }
  }

  lemma {:induction false} MovesOnlyTrade(s: Loop, cfg: Config, inp: Inputs, bar: Bar, moves: seq<Move>)
    ensures OnlyTraded(s, DoAll(s, cfg, inp, bar, moves))
  {
    if moves != [] {
      var init := DoAll(s, cfg, inp, bar, moves[..|moves| - 1]);
      MovesOnlyTrade(s, cfg, inp, bar, moves[..|moves| - 1]);
      MoveOnlyTrades(init, cfg, inp, bar, moves[|moves| - 1]);
      OnlyTradedTransitive(s, init, DoAll(s, cfg, inp, bar, moves));
    }
  }

  predicate Exposed(s: Loop, step: Step) { s.ledger.Exposure(step.Bar().close) > EXPOSURE_EPSILON }

  /** The toggle names a mode, the account is flat, and the executor can be rebuilt for it. */
  predicate CanSwitch(s: Loop, cfg: Config, step: Step) {
    && cfg.switching && step.inputs.desired.Some? && step.inputs.rebuilds
    && s.ledger.Exposure(step.Bar().close) <= EXPOSURE_EPSILON
  }

  predicate Switches(s: Loop, cfg: Config, step: Step) {
    CanSwitch(s, cfg, step) && step.inputs.desired.value != s.mode
  }

  lemma PreparedMode(s: Loop, cfg: Config, step: Step)
    ensures var p := Prepare(s, cfg, step.inputs, step.Bar());
            && p.mode == (if Switches(s, cfg, step) then step.inputs.desired.value else s.mode)
            && p.seen == (if Switches(s, cfg, step) then map[] else s.seen)
            && p.fills == s.fills && p.curve == s.curve && SameBooks(s.ledger, p.ledger)
  {
    var events := PrepareWrites(s, cfg, step.inputs, step.Bar());
  }

  /**
   One cycle: the mode changes only if the cycle started flat, every fill and trade row carries the
   resulting mode, and while exposed a deferral is audited exactly when its target is new.
   */
  ghost predicate ModeLaw(s: Loop, t: Loop, cfg: Config, step: Step) {
    && s.log <= t.log && s.store.trades <= t.store.trades
    && (t.mode != s.mode ==> !Exposed(s, step) && cfg.switching && step.inputs.desired == Some(t.mode))
    && (forall e | e in Since(s, t) :: e.Filled? ==> e.mode == t.mode)
    && (forall r | r in t.store.trades[|s.store.trades|..] :: r.mode == t.mode)
    && (Exposed(s, step) && cfg.switching ==>
          && t.pending == (if step.inputs.desired == Some(s.mode) then None else step.inputs.desired)
          && forall d :: ModeDeferred(d) in Since(s, t)
               <==> step.inputs.desired == Some(d) && d != s.mode && s.pending != Some(d))
    && (!cfg.switching ==> forall d :: ModeDeferred(d) !in Since(s, t))
  }

  lemma PreparationThenTrading(s: Loop, p: Loop, t: Loop, cfg: Config, step: Step, events: seq<Event>)
    requires Prepared(s, p, cfg, step.inputs, step.Bar(), events) && OnlyTraded(p, t)
    ensures ModeLaw(s, t, cfg, step)
  {
    var watch := WatchEvents(s.watch, step.Bar().timestamp);
    assert p.log == s.log + (watch + events);
    EventsSplit(s, p, t, watch, events);
  }

  lemma EventsSplit(s: Loop, p: Loop, t: Loop, watch: seq<Event>, events: seq<Event>)
    requires p.log == s.log + (watch + events) && OnlyTraded(p, t)
    requires forall e | e in watch :: e.FailureWarned? || e.AutoHalted?
    requires forall e | e in events :: e.ModeDeferred? || e.ModeSwitched? || e.RebuildFailed?
    ensures s.log <= t.log
    ensures forall e | e in Since(s, t) :: e.Filled? ==> e.mode == p.mode
    ensures forall d :: ModeDeferred(d) in Since(s, t) <==> ModeDeferred(d) in events
  {
    assert Since(s, t) == watch + events + Since(p, t);
  }

  lemma CycleKeepsModeLaw(s: Loop, t: Loop, cfg: Config, step: Step)
    requires Cycles(s, t, cfg, step)
    ensures ModeLaw(s, t, cfg, step)
  {
    var p, events, moves :| CycleVia(s, t, cfg, step, p, events, moves);
    MovesOnlyTrade(p, cfg, step.inputs, step.Bar(), moves);
    PreparationThenTrading(s, p, t, cfg, step, events);
  }

  // ---- over runs ----

  ghost predicate Lawful(states: seq<Loop>, cfg: Config, steps: seq<Step>) {
    && |states| == |steps| + 1
    && forall i | 0 <= i < |steps| :: ModeLaw(states[i], states[i + 1], cfg, steps[i])
  }

  lemma RunIsLawful(s: Loop, cfg: Config, steps: seq<Step>)
    ensures Lawful(Trace(s, cfg, steps), cfg, steps)
  {
    var states := Trace(s, cfg, steps);
    TraceFollows(s, cfg, steps);
    forall i | 0 <= i < |steps|
      ensures ModeLaw(states[i], states[i + 1], cfg, steps[i])
    {
      CycleKeepsModeLaw(states[i], states[i + 1], cfg, steps[i]);
    }
  }

  /** The recorded mode changes only at the start of a cycle whose open exposure is within the tolerance. */
  lemma ModeChangesOnlyWhenFlat(s: Loop, cfg: Config, steps: seq<Step>)
    ensures var states := Trace(s, cfg, steps);
            forall i | 0 <= i < |steps| ::
              states[i + 1].mode != states[i].mode ==>
                !Exposed(states[i], steps[i]) && steps[i].inputs.desired == Some(states[i + 1].mode)
  {
    RunIsLawful(s, cfg, steps);
    var states := Trace(s, cfg, steps);
    assert forall i | 0 <= i < |steps| :: ModeLaw(states[i], states[i + 1], cfg, steps[i]);
  }

  ghost predicate OneMode(from: Loop, to: Loop) {
    && from.log <= to.log && from.store.trades <= to.store.trades
    && (forall e | e in Since(from, to) :: e.Filled? ==> e.mode == to.mode)
    && (forall r | r in to.store.trades[|from.store.trades|..] :: r.mode == to.mode)
  }

  /**
   Cycles a+1..b-1 start exposed: together with cycle a, which opened the position, they trade under one
   mode, and the mode recorded throughout is the one the position was opened under.
   */
  lemma PositionTradesUnderOneMode(s: Loop, cfg: Config, steps: seq<Step>, a: nat, b: nat)
    requires a < b <= |steps|
    requires forall i | a < i < b :: Exposed(Trace(s, cfg, steps)[i], steps[i])
    ensures var states := Trace(s, cfg, steps);
            && OneMode(states[a], states[b])
            && forall i | a < i <= b :: states[i].mode == states[a + 1].mode
  {
    RunIsLawful(s, cfg, steps);
    LawfulStretch(Trace(s, cfg, steps), cfg, steps, a, b);
  }

  lemma {:induction false} LawfulStretch(states: seq<Loop>, cfg: Config, steps: seq<Step>, a: nat, b: nat)
    requires Lawful(states, cfg, steps) && a < b <= |steps|
    requires forall i | a < i < b :: Exposed(states[i], steps[i])
    ensures OneMode(states[a], states[b])
    ensures forall i | a < i <= b :: states[i].mode == states[a + 1].mode
    decreases b - a
  {
    assert ModeLaw(states[b - 1], states[b], cfg, steps[b - 1]);
    if a < b - 1 {
      LawfulStretch(states, cfg, steps, a, b - 1);
      OneModeExtends(states[a], states[b - 1], states[b]);
    }
  }

  lemma OneModeExtends(from: Loop, mid: Loop, to: Loop)
    requires OneMode(from, mid) && OneMode(mid, to) && mid.mode == to.mode
    ensures OneMode(from, to)
  {
    assert Since(from, to) == Since(from, mid) + Since(mid, to);
    assert to.store.trades[|from.store.trades|..]
        == mid.store.trades[|from.store.trades|..] + to.store.trades[|mid.store.trades|..];
  }

  /** Cycle i audits that the toggle to `d` is deferred. */
  ghost predicate Defers(states: seq<Loop>, i: nat, d: Mode)
    requires i + 1 < |states|
  {
    states[i].log <= states[i + 1].log && ModeDeferred(d) in Since(states[i], states[i + 1])
  }

  /** Within one exposed stretch a target is audited again only after the desired mode changed in between. */
  lemma DeferralAuditedOnce(s: Loop, cfg: Config, steps: seq<Step>, i: nat, j: nat, d: Mode)
    requires i < j < |steps|
    requires forall k | i <= k <= j :: Exposed(Trace(s, cfg, steps)[k], steps[k])
    requires Defers(Trace(s, cfg, steps), i, d) && Defers(Trace(s, cfg, steps), j, d)
    ensures exists k | i < k < j :: steps[k].inputs.desired != Some(d)
  {
    RunIsLawful(s, cfg, steps);
    LawfulDeferral(Trace(s, cfg, steps), cfg, steps, i, j, d);
  }

  lemma LawfulDeferral(states: seq<Loop>, cfg: Config, steps: seq<Step>, i: nat, j: nat, d: Mode)
    requires Lawful(states, cfg, steps) && i < j < |steps|
    requires forall k | i <= k <= j :: Exposed(states[k], steps[k])
    requires Defers(states, i, d) && Defers(states, j, d)
    ensures exists k | i < k < j :: steps[k].inputs.desired != Some(d)
  {
    assert ModeLaw(states[i], states[i + 1], cfg, steps[i]);
    assert ModeLaw(states[j], states[j + 1], cfg, steps[j]);
    if forall k | i < k < j :: steps[k].inputs.desired == Some(d) {
      PendingHolds(states, cfg, steps, i, j, d);
    }
  }

  lemma {:induction false} PendingHolds(states: seq<Loop>, cfg: Config, steps: seq<Step>, i: nat, j: nat, d: Mode)
    requires Lawful(states, cfg, steps) && i < j < |steps| && cfg.switching
    requires forall k | i <= k <= j :: Exposed(states[k], steps[k])
    requires states[i + 1].pending == Some(d) && states[i + 1].mode != d
    requires forall k | i < k < j :: steps[k].inputs.desired == Some(d)
    ensures states[j].pending == Some(d) && states[j].mode != d
    decreases j - i
  {
    if i + 1 < j {
      PendingHolds(states, cfg, steps, i, j - 1, d);
      assert ModeLaw(states[j - 1], states[j], cfg, steps[j - 1]);
    }
  }

  // ---- the kill switch ----

  /** A cycle that reads halted, or hits the floor, makes no executor call and leaves the accounts alone. */
  lemma HaltedCycleNeverTrades(s: Loop, cfg: Config, step: Step)
    requires step.inputs.halted || step.inputs.floor.FloorHit?
    ensures var t := Cycle(s, cfg, step.inputs, step.history).state;
            && s.log <= t.log
            && (forall e | e in Since(s, t) :: !e.Asked? && !e.Filled?)
            && t.store.trades == s.store.trades && t.fills == s.fills
            && SameBooks(s.ledger, t.ledger)
  {
    var t := Cycle(s, cfg, step.inputs, step.history).state;
    CycleCycles(s, cfg, step);
    HaltedCycles(s, t, cfg, step);
  }

  lemma HaltedCycles(s: Loop, t: Loop, cfg: Config, step: Step)
    requires step.inputs.halted || step.inputs.floor.FloorHit?
    requires Cycles(s, t, cfg, step)
    ensures s.log <= t.log
    ensures forall e | e in Since(s, t) :: !e.Asked? && !e.Filled?
    ensures t.store.trades == s.store.trades && t.fills == s.fills
    ensures SameBooks(s.ledger, t.ledger)
  {
    var p, events, moves :| CycleVia(s, t, cfg, step, p, events, moves);
    DoOne(p, cfg, step.inputs, step.Bar(), CloseMove(None));
    CloseWrites(p, cfg, step.inputs, step.Bar(), None);
    QuietPreparation(s, p, cfg, step, events);
  }

  lemma QuietPreparation(s: Loop, p: Loop, cfg: Config, step: Step, events: seq<Event>)
    requires Prepared(s, p, cfg, step.inputs, step.Bar(), events)
    ensures s.log <= p.log && p.store == s.store && p.fills == s.fills && SameBooks(s.ledger, p.ledger)
    ensures forall e | e in Since(s, p) :: !e.Asked? && !e.Filled?
  {
    var noted := WatchEvents(s.watch, step.Bar().timestamp) + events;
    assert p.log == s.log + noted;
    assert Since(s, p) == noted;
  }
}
