/**
 The two figures recovery cannot rebuild from trades: the equity peak and the day's opening equity. Here
 is exactly when they come back as the uninterrupted loop holds them.
 */
module Anchors {
  import opened Market
  import opened Ledgers
  import opened Executors
  import opened Loops
  import opened LoopMoves
  import opened Ordering
  import opened Recovery

  // ---- how far one cycle can raise the peak ----

  /** The peak of the last ledger row, or the capital before any. */
  function RowPeak(rows: seq<LedgerRow>, initial: real): real {
    if rows == [] then initial else rows[|rows| - 1].peak
  }

  ghost predicate SameRows(a: Loop, b: Loop) {
    && |b.fills| == |a.fills| && b.store.ledger == a.store.ledger
    && b.ledger.cash == a.ledger.cash && b.ledger.units == a.ledger.units
  }

  /**
   From `a` to `b` by moves at one close: without a fill the peak rises at most to the equity at that close;
   with one it starts again from the peak its ledger row stored. A close at the end makes it reach that equity.
   */
  ghost predicate PeakMoved(a: Loop, b: Loop, close: real, closed: bool) {
    && |a.fills| <= |b.fills|
    && (|b.fills| == |a.fills| ==>
          SameRows(a, b) && a.ledger.peak <= b.ledger.peak <= Max(a.ledger.peak, b.ledger.Equity(close)))
    && (|b.fills| > |a.fills| ==>
          && b.store.ledger != []
          && RowPeak(b.store.ledger, 0.0) <= b.ledger.peak <= Max(RowPeak(b.store.ledger, 0.0), b.ledger.Equity(close)))
    && (closed ==> b.ledger.Equity(close) <= b.ledger.peak)
  }

  predicate Closing(moves: seq<Move>) { moves != [] && moves[|moves| - 1].CloseMove? }

  lemma MarkMovesPeak(a: Loop, b: Loop, c: Loop, close: real, closed: bool)
    requires PeakMoved(a, b, close, closed)
    requires c.ledger == Mark(b.ledger, close) && c.fills == b.fills && c.store.ledger == b.store.ledger
    ensures PeakMoved(a, c, close, true)
  {
    MarkRaisesPeak(b.ledger, close);
  }

  lemma AskMovesPeak(a: Loop, b: Loop, c: Loop, key: Key, order: Order, inp: Inputs, close: real, closed: bool)
    requires PeakMoved(a, b, close, closed) && Wrote(b, c, key, order, inp) && (inp.recorded || |c.fills| == |b.fills|)
    ensures PeakMoved(a, c, close, false)
  {
  }

  lemma {:induction false} MovesMovePeak(s: Loop, cfg: Config, inp: Inputs, bar: Bar, moves: seq<Move>)
    requires Shaped(moves, bar.close, false) && (inp.recorded || |DoAll(s, cfg, inp, bar, moves).fills| == |s.fills|)
    ensures PeakMoved(s, DoAll(s, cfg, inp, bar, moves), bar.close, Closing(moves))
  {
    if moves != [] {
      var init, m := moves[..|moves| - 1], moves[|moves| - 1];
      var b, c := DoAll(s, cfg, inp, bar, init), DoAll(s, cfg, inp, bar, moves);
      MovesCount(s, cfg, inp, bar, init);
      MoveCounts(b, cfg, inp, bar, m);
      MovesMovePeak(s, cfg, inp, bar, init);
      match m
      case AskMove(channel, order) =>
        SubmitWrites(b, cfg, inp, channel, order, bar);
        AskMovesPeak(s, b, c, Key(cfg.symbol, bar.timestamp, channel), order, inp, bar.close, Closing(init));
      case CloseMove(tradeId) =>
        MarkMovesPeak(s, b, c, bar.close, Closing(init));
      case MarkMove(price) =>
        MarkMovesPeak(s, b, c, bar.close, Closing(init));
      case GateMove(block) =>
    }
  }

  predicate NewDay(s: Loop, bar: Bar) { bar.timestamp / DAY_MS != s.activityDay }

  /** From `s` the peak rose to the open of a new day, and otherwise at most to the close. */
  ghost predicate Rolled(s: Loop, p: Loop, bar: Bar) {
    && SameRows(s, p) && p.fills == s.fills && s.ledger.peak <= p.ledger.peak
    && (NewDay(s, bar) ==> s.ledger.Equity(bar.open) <= p.ledger.peak)
    && (|| p.ledger.peak <= Max(s.ledger.peak, s.ledger.Equity(bar.close))
        || (NewDay(s, bar) && p.ledger.peak <= s.ledger.Equity(bar.open)))
  }

  lemma RollOverMovesPeak(s: Loop, bar: Bar)
    ensures Rolled(s, RollOver(s, bar), bar)
  {
    var rolled := RollDay(s.ledger, bar.timestamp, bar.open);
    MarkRaisesPeak(rolled, bar.close);
    MarkRaisesPeak(rolled, bar.open);
    MarkRaisesPeak(Mark(rolled, bar.close), bar.open);
  }

  lemma SyncKeepsBooks(s: Loop, cfg: Config, inp: Inputs, close: real)
    ensures var t := SyncMode(s, cfg, inp, close); t.ledger == s.ledger && t.fills == s.fills && t.store == s.store
  {
  }

  /** Preparation marks the open on a new day, and otherwise nothing but the close. */
  lemma PrepareMovesPeak(s: Loop, cfg: Config, inp: Inputs, bar: Bar)
    ensures Rolled(s, Prepare(s, cfg, inp, bar), bar)
  {
    var r := RollOver(s, bar);
    RollOverMovesPeak(s, bar);
    CheckWrites(r, bar.timestamp);
    SyncKeepsBooks(CheckSustainedFailure(r, bar.timestamp), cfg, inp, bar.close);
    MarkRaisesPeak(r.ledger, bar.close);
    MarkKeepsRolled(s, r, Prepare(s, cfg, inp, bar), bar);
  }

  lemma MarkKeepsRolled(s: Loop, r: Loop, p: Loop, bar: Bar)
    requires Rolled(s, r, bar) && p.fills == r.fills && p.store == r.store
    requires p.ledger == r.ledger || p.ledger == r.ledger.(peak := Max(r.ledger.peak, r.ledger.Equity(bar.close)))
    ensures Rolled(s, p, bar)
  {
  }

  /** What one cycle does to the peak, and how much of it the log can tell. */
  ghost predicate PeakLaw(s: Loop, t: Loop, step: Step, completed: bool) {
    var bar := step.Bar();
    && |s.fills| <= |t.fills|
    && (completed ==> t.ledger.Equity(bar.close) <= t.ledger.peak)
    && (|t.fills| == |s.fills| ==>
          && SameRows(s, t) && s.ledger.peak <= t.ledger.peak
          && (NewDay(s, bar) ==> s.ledger.Equity(bar.open) <= t.ledger.peak)
          && (|| t.ledger.peak <= Max(s.ledger.peak, s.ledger.Equity(bar.close))
              || (NewDay(s, bar) && t.ledger.peak <= s.ledger.Equity(bar.open))))
    && (|t.fills| > |s.fills| ==>
          && t.store.ledger != []
          && RowPeak(t.store.ledger, 0.0) <= t.ledger.peak
             <= Max(RowPeak(t.store.ledger, 0.0), t.ledger.Equity(bar.close)))
  }

  lemma CyclePeakLaw(s: Loop, cfg: Config, step: Step)
    requires step.inputs.recorded || |After(s, cfg, step).fills| == |s.fills|
    ensures PeakLaw(s, After(s, cfg, step), step, Completes(s, cfg, step))
  {
    var bar := step.Bar();
    var p := Prepare(s, cfg, step.inputs, bar);
    var moves := CycleMoves(s, cfg, step.inputs, step.history);
    PrepareMovesPeak(s, cfg, step.inputs, bar);
    MovesMovePeak(p, cfg, step.inputs, bar, moves);
    PeakLawOf(s, p, After(s, cfg, step), step, Closing(moves), Completes(s, cfg, step));
  }

  lemma PeakLawOf(s: Loop, p: Loop, t: Loop, step: Step, closed: bool, completed: bool)
    requires Rolled(s, p, step.Bar())
    requires PeakMoved(p, t, step.Bar().close, closed) && (completed ==> closed)
    ensures PeakLaw(s, t, step, completed)
  {
  }

  // ---- the peak over a run ----

  /**
   Since the last fill, its own cycle's close included, no cycle's close and no new day's open valued the
   account above `bound`.
   */
  ghost predicate NoLaterHigh(s: Loop, cfg: Config, steps: seq<Step>, bound: real) {
    if steps == [] then true
    else
      var init, bar := steps[..|steps| - 1], steps[|steps| - 1].Bar();
      var a, b := RunSteps(s, cfg, init), RunSteps(s, cfg, steps);
      && b.ledger.Equity(bar.close) <= bound
      && (|b.fills| == |a.fills| ==>
            (NewDay(a, bar) ==> b.ledger.Equity(bar.open) <= bound) && NoLaterHigh(s, cfg, init, bound))
  }

  /** The loop's peak against the last one stored: never below, and equal if and only if no later high. */
  ghost predicate PeakStored(s: Loop, initial: real, quiet: bool, complete: bool) {
    var row := RowPeak(s.store.ledger, initial);
    && row <= s.ledger.peak
    && (quiet ==> s.ledger.peak == row)
    && (complete && s.ledger.peak == row ==> quiet)
  }

  lemma {:induction false} RunPeakStored(initial: real, mode: Mode, cfg: Config, steps: seq<Step>)
    requires FillsRecorded(Boot(initial, mode), cfg, steps)
    ensures var boot := Boot(initial, mode);
            var s := RunSteps(boot, cfg, steps);
            PeakStored(s, initial, NoLaterHigh(boot, cfg, steps, RowPeak(s.store.ledger, initial)),
                       AllComplete(boot, cfg, steps))
    decreases |steps|
  {
    if steps != [] {
      var boot, init, last := Boot(initial, mode), steps[..|steps| - 1], steps[|steps| - 1];
      var a, b := RunSteps(boot, cfg, init), RunSteps(boot, cfg, steps);
      var bound := RowPeak(b.store.ledger, initial);
      RunPeakStored(initial, mode, cfg, init);
      assert b == After(a, cfg, last);
      CyclePeakLaw(a, cfg, last);
      PeakStoredStep(a, b, initial, last, NoLaterHigh(boot, cfg, init, RowPeak(a.store.ledger, initial)),
                     AllComplete(boot, cfg, init), Completes(a, cfg, last));
    }
  }

  lemma PeakStoredStep(a: Loop, b: Loop, initial: real, step: Step, quiet: bool, complete: bool, completed: bool)
    requires PeakStored(a, initial, quiet, complete) && PeakLaw(a, b, step, completed)
    ensures var bound, bar := RowPeak(b.store.ledger, initial), step.Bar();
            PeakStored(b, initial,
                       b.ledger.Equity(bar.close) <= bound
                       && (|b.fills| == |a.fills| ==> (NewDay(a, bar) ==> b.ledger.Equity(bar.open) <= bound) && quiet),
                       complete && completed)
  {
  }

  /** A stored peak of exactly zero reads back as no peak at all. */
  predicate ReadsBack(rows: seq<LedgerRow>, initial: real) { RowPeak(rows, initial) != 0.0 || initial == 0.0 }

  /**
   Over every run that records its fills, in time order: recovery brings back the live peak if, since the
   last fill, nothing valued the account above it; and only if, when no cycle raised.
   */
  lemma PeakSurvivesIffNoLaterHigh(initial: real, mode: Mode, cfg: Config, steps: seq<Step>)
    requires ReliableRun(Boot(initial, mode), cfg, steps)
    ensures var boot := Boot(initial, mode);
            var s := RunSteps(boot, cfg, steps);
            var r := RecoveredLedger(s.store, initial).peak;
            var kept := ReadsBack(s.store.ledger, initial) && NoLaterHigh(boot, cfg, steps, r);
            && r <= s.ledger.peak
            && (kept ==> r == s.ledger.peak)
            && (AllComplete(boot, cfg, steps) ==> (r == s.ledger.peak <==> kept))
  {
    var s := RunSteps(Boot(initial, mode), cfg, steps);
    var now := RunIsMirrored(initial, mode, cfg, steps);
    RunPeakStored(initial, mode, cfg, steps);
    RecoveredPeak(s, initial, now);
  }

  lemma RecoveredPeakIs(store: Store, initial: real)
    ensures RecoveredLedger(store, initial).peak == RestoredPeak(store.ledger, initial)
  {
    ReplayKeepsOpening(initial, RowFills(Reverse(Newest(store.trades, TradeTime, RECENT))));
  }

  lemma RecoveredPeak(s: Loop, initial: real, now: int)
    requires Mirrored(s, initial, now)
    ensures var r, row := RecoveredLedger(s.store, initial).peak, RowPeak(s.store.ledger, initial);
            if ReadsBack(s.store.ledger, initial) then r == row else r == initial < row
  {
    RecoveredPeakIs(s.store, initial);
    PeakIsLastRow(s.store.ledger, initial);
  }

  /** In one cycle: a completed cycle that makes a new high without a fill leaves recovery with a lower peak. */
  lemma NewHighWithoutAFillIsForgotten(s: Loop, cfg: Config, step: Step, initial: real, now: int)
    requires Mirrored(s, initial, now)
    requires Completes(s, cfg, step) && |After(s, cfg, step).fills| == |s.fills|
    requires s.ledger.Equity(step.Bar().close) > s.ledger.peak
    ensures var t := After(s, cfg, step);
            RecoveredLedger(t.store, initial).peak <= s.ledger.peak < t.ledger.peak
  {
    CyclePeakLaw(s, cfg, step);
    NewHighForgotten(s, After(s, cfg, step), step, initial);
  }

  lemma NewHighForgotten(s: Loop, t: Loop, step: Step, initial: real)
    requires PeakLaw(s, t, step, true) && |t.fills| == |s.fills|
    requires RestoredPeak(s.store.ledger, initial) <= s.ledger.peak < s.ledger.Equity(step.Bar().close)
    ensures RecoveredLedger(t.store, initial).peak <= s.ledger.peak < t.ledger.peak
  {
    RecoveredPeakIs(t.store, initial);
  }

  // ---- the day's loss ----

  /** After recovery the first bar's loss is the fall from its own open: the position's, and nothing earlier. */
  lemma RecoveredDayLoss(store: Store, initial: real, timestamp: int, open: real, close: real)
    requires timestamp / DAY_MS != -1
    ensures var r := RecoveredLedger(store, initial);
            RollDay(r, timestamp, open).DailyLoss(close) == Max(Worth(r.units, open) - Worth(r.units, close), 0.0)
  {
    ReplayKeepsOpening(initial, RowFills(Reverse(Newest(store.trades, TradeTime, RECENT))));
  }

  /**
   After any run that records its fills: the first daily loss after recovery is the uninterrupted loop's exactly
   when the bar starts a new day, the day opened at the same equity, or neither opening is above the close.
   */
  lemma DayLossSurvivesIff(initial: real, mode: Mode, cfg: Config, steps: seq<Step>, timestamp: int, open: real,
                           close: real)
    requires ReliableRun(Boot(initial, mode), cfg, steps) && timestamp / DAY_MS != -1
    requires |RunSteps(Boot(initial, mode), cfg, steps).store.trades| <= RECENT
    ensures var s := RunSteps(Boot(initial, mode), cfg, steps);
            var live := s.ledger;
            RollDay(RecoveredLedger(s.store, initial), timestamp, open).DailyLoss(close)
              == RollDay(live, timestamp, open).DailyLoss(close)
            <==> || timestamp / DAY_MS != live.day
                 || live.dayStart == live.Equity(open)
                 || (live.dayStart <= live.Equity(close) && live.Equity(open) <= live.Equity(close))
  {
    var now := RunIsMirrored(initial, mode, cfg, steps);
    MirroredDayLoss(RunSteps(Boot(initial, mode), cfg, steps), initial, now, timestamp, open, close);
  }

  lemma MirroredDayLoss(s: Loop, initial: real, now: int, timestamp: int, open: real, close: real)
    requires Mirrored(s, initial, now) && |s.store.trades| <= RECENT && timestamp / DAY_MS != -1
    ensures var live := s.ledger;
            RollDay(RecoveredLedger(s.store, initial), timestamp, open).DailyLoss(close)
              == RollDay(live, timestamp, open).DailyLoss(close)
            <==> || timestamp / DAY_MS != live.day
                 || live.dayStart == live.Equity(open)
                 || (live.dayStart <= live.Equity(close) && live.Equity(open) <= live.Equity(close))
  {
    MirrorRestores(s, initial, now);
  }
}
