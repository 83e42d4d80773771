/**
 Crash recovery: rebuilding the ledger and the idempotency table from the event log, and how the
 rebuilt state compares with the live one over every run.
 */
module Recovery {
  import opened Market
  import opened Ledgers
  import opened Executors
  import opened Loops
  import opened LoopMoves
  import opened Ordering

  const RECENT: nat := 500

  function RowFill(r: TradeRow): Fill {
    Fill(Order(r.side, r.sizeUsd, r.symbol, r.timestamp), r.price, r.costs)
  }

  function RowFills(rows: seq<TradeRow>): seq<Fill> {
    seq(|rows|, i requires 0 <= i < |rows| => RowFill(rows[i]))
  }

  function TradeTime(r: TradeRow): int { r.timestamp }
  function DecisionTime(r: DecisionRow): int { r.timestamp }
  function LedgerTime(r: LedgerRow): int { r.timestamp }

  /** The peak of the newest ledger row, unless there is none or it reads zero. */
  function RestoredPeak(rows: seq<LedgerRow>, peak: real): real {
    var latest := Newest(rows, LedgerTime, 1);
    if latest == [] || latest[0].peak == 0.0 then peak else Max(peak, latest[0].peak)
  }

  function RecoveredLedger(store: Store, initial: real): Ledger {
    var trades := Reverse(Newest(store.trades, TradeTime, RECENT));
    var replayed := ApplyAll(Open(initial), RowFills(trades));
    replayed.(peak := RestoredPeak(store.ledger, replayed.peak))
  }

  /** Mark every cycle whose decision row names a trade. */
  function MarkTraded(seen: Seen, rows: seq<DecisionRow>): Seen {
    if rows == [] then seen
    else
      var before := MarkTraded(seen, rows[..|rows| - 1]);
      var row := rows[|rows| - 1];
      if row.tradeId.Some? then MarkSeen(before, row.cycle) else before
  }

  function RecoveredSeen(store: Store, seen: Seen): Seen {
    MarkTraded(seen, Newest(store.decisions, DecisionTime, RECENT))
  }

  // ---- the live ledger is the replay of its fills ----

  /** The part of a ledger that fills determine. */
  function Accounts(l: Ledger): Ledger { l.(peak := 0.0, day := 0, dayStart := 0.0) }

  lemma AccountsIgnoreMarks(l: Ledger, m: Ledger, f: Fill)
    requires Accounts(l) == Accounts(m)
    ensures Accounts(Apply(l, f)) == Accounts(Apply(m, f))
    ensures Apply(l, f).peak == l.peak && Apply(l, f).day == l.day && Apply(l, f).dayStart == l.dayStart
  {
    assert UnitsSold(l, f) == UnitsSold(m, f) && Realized(l, f) == Realized(m, f);
    assert Blend(l, UnitsAt(f.order.sizeUsd, f.price), f.price) == Blend(m, UnitsAt(f.order.sizeUsd, f.price), f.price);
  }

  /** Fills that book alike: same side, size, price and costs. */
  predicate Alike(f: Fill, g: Fill) {
    f.order.side == g.order.side && f.order.sizeUsd == g.order.sizeUsd && f.price == g.price && f.costs == g.costs
  }

  lemma {:induction false} ReplayAlike(initial: real, a: seq<Fill>, b: seq<Fill>)
    requires |a| == |b| && forall i | 0 <= i < |a| :: Alike(a[i], b[i])
    ensures ApplyAll(Open(initial), a) == ApplyAll(Open(initial), b)
  {
    if a != [] {
      ReplayAlike(initial, a[..|a| - 1], b[..|b| - 1]);
    }
  }

  lemma {:induction false} ReplayKeepsOpening(initial: real, fills: seq<Fill>)
    ensures var l := ApplyAll(Open(initial), fills);
            l.peak == initial && l.day == -1 && l.dayStart == initial && l.initial == initial
  {
    if fills != [] {
      ReplayKeepsOpening(initial, fills[..|fills| - 1]);
      var l := ApplyAll(Open(initial), fills[..|fills| - 1]);
      AccountsIgnoreMarks(l, l, fills[|fills| - 1]);
    }
  }

  // ---- the invariant of a run whose fills all reach the log ----

  /** From `a` to `b` the venue reports properly and, if anything was filled, the writes reach the log. */
  ghost predicate Reliable(a: Loop, b: Loop, inp: Inputs) {
    ProperVenue(inp) && (inp.recorded || |b.fills| == |a.fills|)
  }

  /**
   The log mirrors the loop: the rows replay to its accounts, are dated in order up to `now`, and hold its peak down.
   */
  ghost predicate Mirrored(s: Loop, initial: real, now: int) {
    && Accounts(s.ledger) == Accounts(ApplyAll(Open(initial), RowFills(s.store.trades)))
    && |s.store.trades| == |s.store.ledger|
    && SortedBy(s.store.trades, TradeTime) && SortedBy(s.store.ledger, LedgerTime)
    && (forall r | r in s.store.trades :: r.timestamp <= now)
    && (forall r | r in s.store.ledger :: r.timestamp <= now && initial <= r.peak)
    && initial <= RestoredPeak(s.store.ledger, initial) <= s.ledger.peak
    && (forall r | r in s.store.decisions :: r.cycle.channel.Base?)
  }

  lemma RowFillsSnoc(rows: seq<TradeRow>, row: TradeRow)
    ensures RowFills(rows + [row]) == RowFills(rows) + [RowFill(row)]
  {
  }

  lemma ApplySnoc(l: Ledger, fills: seq<Fill>, f: Fill)
    ensures ApplyAll(l, fills + [f]) == Apply(ApplyAll(l, fills), f)
  {
    assert (fills + [f])[..|fills|] == fills;
  }

  lemma FillKeepsMirror(a: Loop, b: Loop, key: Key, order: Order, inp: Inputs, initial: real, now: int)
    requires Mirrored(a, initial, now) && Reliable(a, b, inp) && now == key.timestamp
    requires WroteFill(a, b, key, order, inp) && b.store.decisions == a.store.decisions
    ensures Mirrored(b, initial, now)
  {
    var report := inp.venue(key, order).report;
    var fill, row := report.fill.value, RowOf(report, report.fill.value, a.mode, key.timestamp);
    assert inp.venue(key, order).Proper();
    RowBooks(a.ledger, b.ledger, a.store.trades, row, fill, initial);
    var last := b.store.ledger[|a.store.ledger|];
    assert b.store.ledger == a.store.ledger + [last];
    TradesSnoc(a.store.trades, row, now);
    LedgerSnoc(a.store.ledger, last, initial, now);
  }

  lemma TradesSnoc(rows: seq<TradeRow>, row: TradeRow, now: int)
    requires SortedBy(rows, TradeTime) && row.timestamp == now && forall r | r in rows :: r.timestamp <= now
    ensures SortedBy(rows + [row], TradeTime) && forall r | r in rows + [row] :: r.timestamp <= now
  {
  }

  lemma LedgerSnoc(rows: seq<LedgerRow>, row: LedgerRow, initial: real, now: int)
    requires SortedBy(rows, LedgerTime) && row.timestamp == now && initial <= row.peak
    requires forall r | r in rows :: r.timestamp <= now && initial <= r.peak
    ensures SortedBy(rows + [row], LedgerTime)
    ensures forall r | r in rows + [row] :: r.timestamp <= now && initial <= r.peak
    ensures initial <= RestoredPeak(rows + [row], initial) <= row.peak
  {
    assert SortedBy(rows + [row], LedgerTime);
    PeakIsLastRow(rows + [row], initial);
  }

  /** Booking a fill and replaying its row come to the same. */
  lemma RowBooks(l: Ledger, m: Ledger, rows: seq<TradeRow>, row: TradeRow, fill: Fill, initial: real)
    requires Accounts(l) == Accounts(ApplyAll(Open(initial), RowFills(rows)))
    requires m == Apply(l, fill).(peak := m.peak) && Alike(RowFill(row), fill)
    ensures Accounts(m) == Accounts(ApplyAll(Open(initial), RowFills(rows + [row])))
  {
    var replay := ApplyAll(Open(initial), RowFills(rows));
    AccountsIgnoreMarks(l, replay, fill);
    RowFillsSnoc(rows, row);
    ApplySnoc(Open(initial), RowFills(rows), RowFill(row));
    AlikeBook(replay, RowFill(row), fill);
  }

  lemma AlikeBook(l: Ledger, f: Fill, g: Fill)
    requires Alike(f, g)
    ensures Apply(l, f) == Apply(l, g)
  {
  }

  lemma SubmissionKeepsMirror(a: Loop, b: Loop, key: Key, order: Order, inp: Inputs, initial: real)
    requires Wrote(a, b, key, order, inp) && Mirrored(a, initial, key.timestamp) && Reliable(a, b, inp)
    ensures Mirrored(b, initial, key.timestamp)
  {
    if WroteFill(a, b, key, order, inp) {
      FillKeepsMirror(a, b, key, order, inp, initial, key.timestamp);
    } else {
      assert Unfilled(a, b);
    }
  }

  lemma MoveKeepsMirror(s: Loop, cfg: Config, inp: Inputs, bar: Bar, m: Move, initial: real)
    requires Mirrored(s, initial, bar.timestamp) && Reliable(s, Do(s, cfg, inp, bar, m), inp)
    ensures Mirrored(Do(s, cfg, inp, bar, m), initial, bar.timestamp)
  {
    match m
    case AskMove(channel, order) =>
      SubmitWrites(s, cfg, inp, channel, order, bar);
      SubmissionKeepsMirror(s, Do(s, cfg, inp, bar, m), Key(cfg.symbol, bar.timestamp, channel), order, inp, initial);
    case CloseMove(tradeId) =>
      MarkRaisesPeak(s.ledger, bar.close);
      DecisionsStayBase(s.store.decisions, DecisionRow(Key(cfg.symbol, bar.timestamp, Base), bar.timestamp, tradeId));
    case MarkMove(price) =>
      MarkRaisesPeak(s.ledger, price);
    case GateMove(block) =>
  }

  lemma {:induction false} DecisionsStayBase(rows: seq<DecisionRow>, row: DecisionRow)
    requires row.cycle.channel.Base? && forall r | r in rows :: r.cycle.channel.Base?
    ensures forall r | r in RecordDecision(rows, row) :: r.cycle.channel.Base?
  {
    if rows != [] && rows[0].cycle != row.cycle {
      DecisionsStayBase(rows[1..], row);
    }
  }

  lemma {:induction false} MovesKeepMirror(s: Loop, cfg: Config, inp: Inputs, bar: Bar, moves: seq<Move>, initial: real)
    requires Mirrored(s, initial, bar.timestamp) && Reliable(s, DoAll(s, cfg, inp, bar, moves), inp)
    ensures Mirrored(DoAll(s, cfg, inp, bar, moves), initial, bar.timestamp)
  {
    if moves != [] {
      var init := moves[..|moves| - 1];
      MovesCount(s, cfg, inp, bar, init);
      MoveCounts(DoAll(s, cfg, inp, bar, init), cfg, inp, bar, moves[|moves| - 1]);
      MovesKeepMirror(s, cfg, inp, bar, init, initial);
      MoveKeepsMirror(DoAll(s, cfg, inp, bar, init), cfg, inp, bar, moves[|moves| - 1], initial);
    }
  }

  lemma CycleKeepsMirror(s: Loop, t: Loop, cfg: Config, step: Step, initial: real, before: int)
    requires Cycles(s, t, cfg, step) && Mirrored(s, initial, before) && Reliable(s, t, step.inputs)
    requires before <= step.Bar().timestamp
    ensures Mirrored(t, initial, step.Bar().timestamp)
  {
    var p, events, moves :| CycleVia(s, t, cfg, step, p, events, moves);
    assert Mirrored(p, initial, step.Bar().timestamp);
    MovesKeepMirror(p, cfg, step.inputs, step.Bar(), moves, initial);
  }

  /** Every cycle that fills anything writes to the log, and every venue reports properly. */
  ghost predicate FillsRecorded(s: Loop, cfg: Config, steps: seq<Step>) {
    if steps == [] then true
    else
      var init, last := steps[..|steps| - 1], steps[|steps| - 1];
      FillsRecorded(s, cfg, init) && Reliable(RunSteps(s, cfg, init), RunSteps(s, cfg, steps), last.inputs)
  }

  predicate InOrder(steps: seq<Step>) {
    forall i, j | 0 <= i < j < |steps| :: steps[i].Bar().timestamp <= steps[j].Bar().timestamp
  }

  ghost predicate ReliableRun(s: Loop, cfg: Config, steps: seq<Step>) {
    FillsRecorded(s, cfg, steps) && InOrder(steps)
  }

  /** Any process that starts out mirrored, fresh or itself recovered, stays so over every run in time order. */
  lemma {:induction false} RunKeepsMirror(s: Loop, cfg: Config, steps: seq<Step>, initial: real, at: int)
    returns (now: int)
    requires Mirrored(s, initial, at) && ReliableRun(s, cfg, steps)
    requires steps != [] ==> at <= steps[0].Bar().timestamp
    ensures Mirrored(RunSteps(s, cfg, steps), initial, now)
    ensures now == if steps == [] then at else steps[|steps| - 1].Bar().timestamp
    decreases |steps|
  {
    if steps == [] {
      now := at;
    } else {
      var init, last := steps[..|steps| - 1], steps[|steps| - 1];
      var before := RunKeepsMirror(s, cfg, init, initial, at);
      var mid := RunSteps(s, cfg, init);
      now := last.Bar().timestamp;
      CycleCycles(mid, cfg, last);
      CycleKeepsMirror(mid, RunSteps(s, cfg, steps), cfg, last, initial, before);
    }
  }

  /**
   Since `past` rows were written: the new rows match the fills one for one, trade by trade and ledger row by ledger
   row, and no new ledger row is above the peak.
   */
  ghost predicate Written(s: Loop, past: nat) {
    && |s.store.trades| == |s.store.ledger| == past + |s.fills|
    && (forall i | 0 <= i < |s.fills| :: Alike(RowFill(s.store.trades[past + i]), s.fills[i]))
    && (forall i | past <= i < |s.store.ledger| :: s.store.ledger[i].peak <= s.ledger.peak)
  }

  lemma SubmissionKeepsWritten(a: Loop, b: Loop, key: Key, order: Order, inp: Inputs, past: nat)
    requires Wrote(a, b, key, order, inp) && Written(a, past) && Reliable(a, b, inp)
    ensures Written(b, past)
  {
    if WroteFill(a, b, key, order, inp) {
      var report := inp.venue(key, order).report;
      assert inp.venue(key, order).Proper();
      assert Alike(RowFill(RowOf(report, report.fill.value, a.mode, key.timestamp)), report.fill.value);
    } else {
      assert Unfilled(a, b);
    }
  }

  lemma {:induction false} MovesKeepWritten(s: Loop, cfg: Config, inp: Inputs, bar: Bar, moves: seq<Move>, past: nat)
    requires Written(s, past) && Reliable(s, DoAll(s, cfg, inp, bar, moves), inp)
    ensures Written(DoAll(s, cfg, inp, bar, moves), past)
  {
    if moves != [] {
      var init, m := moves[..|moves| - 1], moves[|moves| - 1];
      var before := DoAll(s, cfg, inp, bar, init);
      MovesCount(s, cfg, inp, bar, init);
      MoveCounts(before, cfg, inp, bar, m);
      MovesKeepWritten(s, cfg, inp, bar, init, past);
      match m
      case AskMove(channel, order) =>
        SubmitWrites(before, cfg, inp, channel, order, bar);
        var after, key := Do(before, cfg, inp, bar, m), Key(cfg.symbol, bar.timestamp, channel);
        SubmissionKeepsWritten(before, after, key, order, inp, past);
      case CloseMove(tradeId) =>
        MarkRaisesPeak(before.ledger, bar.close);
      case MarkMove(price) =>
        MarkRaisesPeak(before.ledger, price);
      case GateMove(block) =>
    }
  }

  lemma CycleKeepsWritten(s: Loop, t: Loop, cfg: Config, step: Step, past: nat)
    requires Cycles(s, t, cfg, step) && Written(s, past) && Reliable(s, t, step.inputs)
    ensures Written(t, past)
  {
    var p, events, moves :| CycleVia(s, t, cfg, step, p, events, moves);
    assert Written(p, past);
    MovesKeepWritten(p, cfg, step.inputs, step.Bar(), moves, past);
  }

  lemma {:induction false} RunKeepsWritten(s: Loop, cfg: Config, steps: seq<Step>, past: nat)
    requires Written(s, past) && FillsRecorded(s, cfg, steps)
    ensures Written(RunSteps(s, cfg, steps), past)
    decreases |steps|
  {
    if steps != [] {
      var init, last := steps[..|steps| - 1], steps[|steps| - 1];
      RunKeepsWritten(s, cfg, init, past);
      CycleCycles(RunSteps(s, cfg, init), cfg, last);
      CycleKeepsWritten(RunSteps(s, cfg, init), RunSteps(s, cfg, steps), cfg, last, past);
    }
  }

  lemma BootIsMirrored(initial: real, mode: Mode, now: int)
    ensures Mirrored(Boot(initial, mode), initial, now) && Written(Boot(initial, mode), 0)
  {
  }

  lemma RunIsMirrored(initial: real, mode: Mode, cfg: Config, steps: seq<Step>) returns (now: int)
    requires ReliableRun(Boot(initial, mode), cfg, steps)
    ensures Mirrored(RunSteps(Boot(initial, mode), cfg, steps), initial, now)
    ensures Written(RunSteps(Boot(initial, mode), cfg, steps), 0)
    ensures steps != [] ==> now == steps[|steps| - 1].Bar().timestamp
  {
    var at := if steps == [] then 0 else steps[0].Bar().timestamp;
    BootIsMirrored(initial, mode, at);
    now := RunKeepsMirror(Boot(initial, mode), cfg, steps, initial, at);
    RunKeepsWritten(Boot(initial, mode), cfg, steps, 0);
  }

  // ---- what recovery restores ----

  lemma MirrorRestores(s: Loop, initial: real, now: int)
    requires Mirrored(s, initial, now) && |s.store.trades| <= RECENT
    ensures var r := RecoveredLedger(s.store, initial);
            && r == s.ledger.(peak := r.peak, day := -1, dayStart := initial)
            && initial <= r.peak <= s.ledger.peak
  {
    NewestReversed(s.store.trades, TradeTime, RECENT);
    ReplayKeepsOpening(initial, RowFills(s.store.trades));
  }

  lemma PeakIsLastRow(rows: seq<LedgerRow>, peak: real)
    requires SortedBy(rows, LedgerTime)
    ensures RestoredPeak(rows, peak)
         == if rows == [] || rows[|rows| - 1].peak == 0.0 then peak else Max(peak, rows[|rows| - 1].peak)
  {
    SortedStays(rows, LedgerTime);
  }

  /**
   After any run that records its fills, with bars in time order and at most 500 trades, recovery rebuilds
   the live ledger exactly - cash, units, average entry, costs, realised profit and loss streak - except
   the day anchor, which restarts, and the peak, which lies between the initial capital and the live peak.
   */
  lemma RecoveryRebuildsLedger(initial: real, mode: Mode, cfg: Config, steps: seq<Step>)
    requires ReliableRun(Boot(initial, mode), cfg, steps)
    requires |RunSteps(Boot(initial, mode), cfg, steps).store.trades| <= RECENT
    ensures var s := RunSteps(Boot(initial, mode), cfg, steps);
            var r := RecoveredLedger(s.store, initial);
            && r == s.ledger.(peak := r.peak, day := -1, dayStart := initial)
            && initial <= r.peak <= s.ledger.peak
  {
    var now := RunIsMirrored(initial, mode, cfg, steps);
    MirrorRestores(RunSteps(Boot(initial, mode), cfg, steps), initial, now);
  }

  // ---- beyond 500 trades ----

  function Flow(f: Fill): real {
    if f.order.side.Buy? then -(f.order.sizeUsd + f.costs.Total()) else f.order.sizeUsd - f.costs.Total()
  }

  function TotalFlow(fills: seq<Fill>): real {
    if fills == [] then 0.0 else TotalFlow(fills[..|fills| - 1]) + Flow(fills[|fills| - 1])
  }

  lemma {:induction false} CashIsFlow(initial: real, fills: seq<Fill>)
    ensures ApplyAll(Open(initial), fills).cash == initial + TotalFlow(fills)
  {
    if fills != [] {
      CashIsFlow(initial, fills[..|fills| - 1]);
    }
  }

  lemma {:induction false} FlowConcat(a: seq<Fill>, b: seq<Fill>)
    ensures TotalFlow(a + b) == TotalFlow(a) + TotalFlow(b)
  {
    if b == [] {
      assert a + b == a;
    } else {
      assert (a + b)[..|a + b| - 1] == a + b[..|b| - 1];
      FlowConcat(a, b[..|b| - 1]);
    }
  }

  /** What recovery rebuilds, when the replayed rows are known. */
  lemma RecoveredAccounts(store: Store, initial: real, rows: seq<TradeRow>, fills: seq<Fill>)
    requires rows == Reverse(Newest(store.trades, TradeTime, RECENT)) && |rows| == |fills|
    requires forall i | 0 <= i < |rows| :: Alike(RowFill(rows[i]), fills[i])
    ensures Accounts(RecoveredLedger(store, initial)) == Accounts(ApplyAll(Open(initial), fills))
  {
    ReplayAlike(initial, RowFills(rows), fills);
  }

  lemma AlikeTails(rows: seq<TradeRow>, fills: seq<Fill>, n: nat)
    requires |rows| == |fills| && n <= |rows| && forall i | 0 <= i < |rows| :: Alike(RowFill(rows[i]), fills[i])
    ensures forall i | 0 <= i < |rows[n..]| :: Alike(RowFill(rows[n..][i]), fills[n..][i])
  {
    forall i | 0 <= i < |rows[n..]|
      ensures Alike(RowFill(rows[n..][i]), fills[n..][i])
    {
      assert Alike(RowFill(rows[n + i]), fills[n + i]);
    }
  }

  lemma TailReplays(store: Store, initial: real, fills: seq<Fill>, n: nat)
    requires |store.trades| == |fills| == n + RECENT && SortedBy(store.trades, TradeTime)
    requires forall i | 0 <= i < |fills| :: Alike(RowFill(store.trades[i]), fills[i])
    ensures Accounts(RecoveredLedger(store, initial)) == Accounts(ApplyAll(Open(initial), fills[n..]))
  {
    NewestReversed(store.trades, TradeTime, RECENT);
    AlikeTails(store.trades, fills, n);
    RecoveredAccounts(store, initial, store.trades[n..], fills[n..]);
  }

  /** Recovery is the replay of the newest 500 fills onto a fresh account. */
  lemma MirrorReplaysNewest(s: Loop, initial: real)
    requires Written(s, 0) && SortedBy(s.store.trades, TradeTime) && |s.store.trades| > RECENT
    ensures Accounts(RecoveredLedger(s.store, initial))
         == Accounts(ApplyAll(Open(initial), s.fills[|s.fills| - RECENT..]))
  {
    TailReplays(s.store, initial, s.fills, |s.fills| - RECENT);
  }

  /** The same position, and the same cost basis while there is one. */
  ghost predicate SamePosition(l: Ledger, m: Ledger) {
    l.units == m.units >= 0.0 && (l.units == 0.0 || l.avgEntry == m.avgEntry)
  }

  /** `l` holds at most what `m` holds, and if it holds as much, at the same cost. */
  ghost predicate Trails(l: Ledger, m: Ledger) {
    0.0 <= l.units <= m.units && (l.units == m.units ==> SamePosition(l, m))
  }

  /** A fill carries an equal position over, and a sale of everything `m` holds makes the two equal. */
  lemma FillKeepsTrailing(l: Ledger, m: Ledger, f: Fill)
    requires Trails(l, m) && f.order.sizeUsd >= 0.0
    ensures var l', m' := Apply(l, f), Apply(m, f);
            Trails(l', m') && (l'.units == m'.units <==> l.units == m.units || m'.units == 0.0)
  {
    if f.price > 0.0 {
      UnitsOrder(f.order.sizeUsd, l.units, f.price);
    }
  }

  /** Replayed onto `l`, the fills pass through a flat account. */
  ghost predicate PassesFlat(l: Ledger, fills: seq<Fill>) {
    exists k | 0 <= k <= |fills| :: ApplyAll(l, fills[..k]).units == 0.0
  }

  lemma PassesFlatSnoc(l: Ledger, fills: seq<Fill>)
    requires fills != []
    ensures PassesFlat(l, fills) <==> PassesFlat(l, fills[..|fills| - 1]) || ApplyAll(l, fills).units == 0.0
  {
    var init := fills[..|fills| - 1];
    assert forall k | 0 <= k < |fills| :: fills[..k] == init[..k];
    assert fills[..|fills|] == fills;
    if k :| 0 <= k <= |fills| && ApplyAll(l, fills[..k]).units == 0.0 && k < |fills| {
      assert ApplyAll(l, init[..k]).units == 0.0;
    }
    if k :| 0 <= k <= |init| && ApplyAll(l, init[..k]).units == 0.0 {
      assert ApplyAll(l, fills[..k]).units == 0.0;
    }
  }

  /**
   The same fills on a flat account and on `m`: the first never holds more, and the two hold the same, at the
   same cost, if and only if `m` was flat at some moment.
   */
  lemma {:induction false} FlatStartCatchesUp(l: Ledger, m: Ledger, fills: seq<Fill>)
    requires l.units == 0.0 <= m.units && forall f | f in fills :: f.order.sizeUsd >= 0.0
    ensures var l', m' := ApplyAll(l, fills), ApplyAll(m, fills);
            Trails(l', m') && (l'.units == m'.units <==> PassesFlat(m, fills))
  {
    if fills == [] {
      assert fills[..0] == fills;
    } else {
      var init := fills[..|fills| - 1];
      FlatStartCatchesUp(l, m, init);
      FillKeepsTrailing(ApplyAll(l, init), ApplyAll(m, init), fills[|fills| - 1]);
      PassesFlatSnoc(m, fills);
    }
  }

  /** What the fills outside the newest 500 leave behind. */
  ghost predicate FellOut(recovered: Ledger, live: Ledger, initial: real, dropped: seq<Fill>, kept: seq<Fill>) {
    var before := ApplyAll(Open(initial), dropped);
    && Accounts(recovered) == Accounts(ApplyAll(Open(initial), kept))
    && Accounts(live) == Accounts(ApplyAll(before, kept))
    && recovered.cash == live.cash - TotalFlow(dropped)
    && (before.units >= 0.0 && (forall f | f in kept :: f.order.sizeUsd >= 0.0) ==>
          && 0.0 <= recovered.units <= live.units
          && (recovered.units == live.units <==> PassesFlat(before, kept))
          && (PassesFlat(before, kept) ==> SamePosition(recovered, live)))
  }

  lemma DroppedFillsFellOut(recovered: Ledger, live: Ledger, initial: real, dropped: seq<Fill>, kept: seq<Fill>)
    requires Accounts(recovered) == Accounts(ApplyAll(Open(initial), kept))
    requires Accounts(live) == Accounts(ApplyAll(Open(initial), dropped + kept))
    ensures FellOut(recovered, live, initial, dropped, kept)
  {
    var before := ApplyAll(Open(initial), dropped);
    ApplyAllConcat(Open(initial), dropped, kept);
    CashIsFlow(initial, dropped + kept);
    CashIsFlow(initial, kept);
    FlowConcat(dropped, kept);
    if before.units >= 0.0 && forall f | f in kept :: f.order.sizeUsd >= 0.0 {
      FlatStartCatchesUp(Open(initial), before, kept);
    }
  }

  /**
   With more than 500 trades recovery is the replay of the newest 500 onto a fresh account, where the live
   ledger replays them onto what the older ones left. The cash is off by exactly the older ones' net flow, so
   it is right if and only if they cancel. The position is never too large, and it is right, cost basis and all,
   if and only if the live account was flat at some moment since the older ones.
   */
  lemma OldTradesFallOut(initial: real, mode: Mode, cfg: Config, steps: seq<Step>)
    requires ReliableRun(Boot(initial, mode), cfg, steps)
    requires |RunSteps(Boot(initial, mode), cfg, steps).store.trades| > RECENT
    ensures var s := RunSteps(Boot(initial, mode), cfg, steps);
            && |s.fills| > RECENT
            && var n := |s.fills| - RECENT;
               FellOut(RecoveredLedger(s.store, initial), s.ledger, initial, s.fills[..n], s.fills[n..])
  {
    var now := RunIsMirrored(initial, mode, cfg, steps);
    MirrorFellOut(RunSteps(Boot(initial, mode), cfg, steps), initial, now);
  }

  /** The live accounts are the replay of the fills. */
  lemma WrittenReplays(s: Loop, initial: real, now: int)
    requires Mirrored(s, initial, now) && Written(s, 0)
    ensures Accounts(s.ledger) == Accounts(ApplyAll(Open(initial), s.fills))
  {
    ReplayAlike(initial, RowFills(s.store.trades), s.fills);
  }

  lemma MirrorFellOut(s: Loop, initial: real, now: int)
    requires Mirrored(s, initial, now) && Written(s, 0) && |s.store.trades| > RECENT
    ensures |s.fills| > RECENT
    ensures var n := |s.fills| - RECENT;
            FellOut(RecoveredLedger(s.store, initial), s.ledger, initial, s.fills[..n], s.fills[n..])
  {
    var n := |s.fills| - RECENT;
    MirrorReplaysNewest(s, initial);
    WrittenReplays(s, initial, now);
    assert s.fills == s.fills[..n] + s.fills[n..];
    DroppedFillsFellOut(RecoveredLedger(s.store, initial), s.ledger, initial, s.fills[..n], s.fills[n..]);
  }

  // ---- the idempotency table ----

  lemma {:induction false} MarkedExactly(seen: Seen, rows: seq<DecisionRow>, key: Key)
    ensures key in MarkTraded(seen, rows)
            <==> key in seen || exists i | 0 <= i < |rows| :: rows[i].cycle == key && rows[i].tradeId.Some?
    ensures key !in seen && key in MarkTraded(seen, rows) ==>
              MarkTraded(seen, rows)[key] == Report(FILLED, Order(Buy, 0.0, "", 0), None, None)
  {
    if rows != [] {
      MarkedExactly(seen, rows[..|rows| - 1], key);
    }
  }

  /** A cycle whose decision row is among the newest 500 and names a trade answers only DUPLICATE under its cycle id. */
  lemma RecoveredCycleNeverResent(store: Store, row: DecisionRow, calls: seq<Call>, j: nat)
    requires row in Newest(store.decisions, DecisionTime, RECENT) && row.tradeId.Some?
    requires j < |calls| && calls[j].key == row.cycle
    ensures var served := Serve(RecoveredSeen(store, map[]), calls);
            && |served.replies| == |calls|
            && served.replies[j] == Answer(Report(DUPLICATE, calls[j].order, None, None))
  {
    var rows := Newest(store.decisions, DecisionTime, RECENT);
    var seen := RecoveredSeen(store, map[]);
    MarkedExactly(map[], rows, row.cycle);
    assert calls[..0] == [];
    TableEntryStays(seen, calls, 0, j, row.cycle);
    ServeStep(seen, calls, j);
  }

  /**
   Only base cycle ids come back: a fill an overlay or the activity rule made under its own key before
   the crash is executed again if the cycle is replayed after it.
   */
  lemma OverlayKeysAreNotRestored(initial: real, mode: Mode, cfg: Config, steps: seq<Step>, key: Key, order: Order,
                                  venue: Reply)
    requires ReliableRun(Boot(initial, mode), cfg, steps) && !key.channel.Base? && venue.Answer?
    ensures var s := RunSteps(Boot(initial, mode), cfg, steps);
            ExecuteOnce(RecoveredSeen(s.store, map[]), key, order, venue).reply == venue
  {
    var now := RunIsMirrored(initial, mode, cfg, steps);
    BaseRowsMarkNoOther(RunSteps(Boot(initial, mode), cfg, steps).store, key);
  }

  lemma BaseRowsMarkNoOther(store: Store, key: Key)
    requires !key.channel.Base? && forall r | r in store.decisions :: r.cycle.channel.Base?
    ensures key !in RecoveredSeen(store, map[])
  {
    NewestAreRows(store.decisions, DecisionTime, RECENT);
    MarkedExactly(map[], Newest(store.decisions, DecisionTime, RECENT), key);
  }
}
