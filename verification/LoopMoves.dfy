/**
 Every cycle, whichever overlay decides it, is a preparation followed by a few elementary moves.
 The laws of the loop are proved once per move and carried over cycles and runs.
 */
module LoopMoves {
  import opened Market
  import opened Ledgers
  import opened Executors
  import opened Loops

  datatype Move = MarkMove(price: real) | GateMove(block: bool) | AskMove(channel: Channel, order: Order)
                | CloseMove(tradeId: Option<nat>)

  function Do(s: Loop, cfg: Config, inp: Inputs, bar: Bar, m: Move): Loop {
    match m
    case MarkMove(price) => MarkLoop(s, price)
    case GateMove(block) => s.(blockEntry := block)
    case AskMove(channel, order) => Submit(s, cfg, inp, channel, order, bar).state
    case CloseMove(tradeId) => Finalise(s, cfg, inp, bar, tradeId)
  }

  function DoAll(s: Loop, cfg: Config, inp: Inputs, bar: Bar, moves: seq<Move>): Loop {
    if moves == [] then s
    else Do(DoAll(s, cfg, inp, bar, moves[..|moves| - 1]), cfg, inp, bar, moves[|moves| - 1])
  }

  lemma {:induction false} DoAllConcat(s: Loop, cfg: Config, inp: Inputs, bar: Bar, a: seq<Move>, b: seq<Move>)
    ensures DoAll(s, cfg, inp, bar, a + b) == DoAll(DoAll(s, cfg, inp, bar, a), cfg, inp, bar, b)
  {
    if b == [] {
      assert a + b == a;
    } else {
      assert (a + b)[..|a + b| - 1] == a + b[..|b| - 1];
      DoAllConcat(s, cfg, inp, bar, a, b[..|b| - 1]);
    }
  }

  lemma DoOne(s: Loop, cfg: Config, inp: Inputs, bar: Bar, m: Move)
    ensures DoAll(s, cfg, inp, bar, [m]) == Do(s, cfg, inp, bar, m)
  {
    assert [m][..0] == [];
  }

  lemma DoThen(s: Loop, cfg: Config, inp: Inputs, bar: Bar, m: Move, rest: seq<Move>)
    ensures DoAll(s, cfg, inp, bar, [m] + rest) == DoAll(Do(s, cfg, inp, bar, m), cfg, inp, bar, rest)
  {
    DoOne(s, cfg, inp, bar, m);
    DoAllConcat(s, cfg, inp, bar, [m], rest);
  }

  /** Nothing is asked under the activity rule's key. */
  predicate NoActivity(moves: seq<Move>) {
    forall m | m in moves && m.AskMove? :: !m.channel.Activity?
  }

  /** Every mark is at the close, and a completed cycle ends by closing. */
  predicate Shaped(moves: seq<Move>, close: real, completed: bool) {
    && (forall m | m in moves && m.MarkMove? :: m.price == close)
    && (completed ==> moves != [] && moves[|moves| - 1].CloseMove?)
  }

  /** Only fills count as trades of the day, one each, and a submission never moves the day. */
  ghost predicate CountsFills(a: Loop, b: Loop) {
    && b.tradesToday - |b.fills| == a.tradesToday - |a.fills|
    && |b.fills| >= |a.fills| && b.activityDay == a.activityDay
  }

  lemma SubmitCounts(s: Loop, cfg: Config, inp: Inputs, channel: Channel, order: Order, bar: Bar)
    ensures CountsFills(s, Submit(s, cfg, inp, channel, order, bar).state)
  {
    var key := Key(cfg.symbol, bar.timestamp, channel);
    var o := ExecuteOnce(s.seen, key, order, inp.venue(key, order));
    var asked := Note(s, Asked(key)).(seen := o.seen);
    if o.reply.IsFill() {
      var fill := o.reply.report.fill.value;
      PairWrites(Booked(asked, fill), fill, Realized(asked.ledger, fill), bar, inp);
    }
  }

  lemma MoveCounts(s: Loop, cfg: Config, inp: Inputs, bar: Bar, m: Move)
    ensures CountsFills(s, Do(s, cfg, inp, bar, m))
  {
    if m.AskMove? {
      SubmitCounts(s, cfg, inp, m.channel, m.order, bar);
    }
  }

  /** Along any moves the fills only grow, each counted once. */
  lemma {:induction false} MovesCount(s: Loop, cfg: Config, inp: Inputs, bar: Bar, moves: seq<Move>)
    ensures CountsFills(s, DoAll(s, cfg, inp, bar, moves))
  {
    if moves != [] {
      var init := moves[..|moves| - 1];
      MovesCount(s, cfg, inp, bar, init);
      MoveCounts(DoAll(s, cfg, inp, bar, init), cfg, inp, bar, moves[|moves| - 1]);
    }
  }

  /** Putting a move in front of a path keeps its shape. */
  lemma Prepend(s: Loop, cfg: Config, inp: Inputs, bar: Bar, m: Move, rest: seq<Move>, completed: bool)
    requires Shaped(rest, bar.close, completed) && (m.MarkMove? ==> m.price == bar.close)
    ensures DoAll(s, cfg, inp, bar, [m] + rest) == DoAll(Do(s, cfg, inp, bar, m), cfg, inp, bar, rest)
    ensures Shaped([m] + rest, bar.close, completed)
    ensures NoActivity(rest) && (m.AskMove? ==> !m.channel.Activity?) ==> NoActivity([m] + rest)
  {
    DoThen(s, cfg, inp, bar, m, rest);
  }

  lemma WatchMoves(s: Loop, cfg: Config, inp: Inputs, bar: Bar, tradeId: Option<nat>) returns (moves: seq<Move>)
    ensures DoAll(s, cfg, inp, bar, moves)
         == Finalise(if inp.watching then MarkLoop(s, bar.close) else s, cfg, inp, bar, tradeId)
    ensures Shaped(moves, bar.close, true) && NoActivity(moves)
  {
    var close := CloseMove(tradeId);
    moves := [close];
    if inp.watching {
      DoOne(MarkLoop(s, bar.close), cfg, inp, bar, close);
      Prepend(s, cfg, inp, bar, MarkMove(bar.close), [close], true);
      moves := [MarkMove(bar.close)] + [close];
    } else {
      DoOne(s, cfg, inp, bar, close);
    }
  }

  lemma ActivityMoves(s: Loop, cfg: Config, inp: Inputs, bar: Bar, tradeId: Option<nat>) returns (moves: seq<Move>)
    ensures DoAll(s, cfg, inp, bar, moves) == ActivityAndClose(s, cfg, inp, bar, tradeId).state
    ensures Shaped(moves, bar.close, ActivityAndClose(s, cfg, inp, bar, tradeId).completed)
    ensures s.tradesToday > 0 ==> NoActivity(moves)
  {
    var order := ActivityOrder(s, cfg, inp, bar);
    if order.None? {
      moves := WatchMoves(s, cfg, inp, bar, tradeId);
    } else if order.value.side.Buy? {
      var marked := MarkLoop(s, bar.close);
      var t := Submit(marked, cfg, inp, Activity, order.value, bar);
      var rest := ForcedMoves(marked, cfg, inp, order.value, bar, tradeId);
      Prepend(s, cfg, inp, bar, MarkMove(bar.close), rest, !t.raised);
      moves := [MarkMove(bar.close)] + rest;
    } else {
      moves := ForcedMoves(s, cfg, inp, order.value, bar, tradeId);
    }
  }

  /** The forced order, then the watches and the close unless it raised. */
  lemma ForcedMoves(s: Loop, cfg: Config, inp: Inputs, order: Order, bar: Bar, tradeId: Option<nat>)
    returns (moves: seq<Move>)
    ensures var t := Submit(s, cfg, inp, Activity, order, bar);
            && DoAll(s, cfg, inp, bar, moves)
               == (if t.raised then t.state
                   else Finalise(if inp.watching then MarkLoop(t.state, bar.close) else t.state,
                                 cfg, inp, bar, tradeId))
            && Shaped(moves, bar.close, !t.raised)
  {
    var ask, t := AskMove(Activity, order), Submit(s, cfg, inp, Activity, order, bar);
    if t.raised {
      moves := [ask];
      DoOne(s, cfg, inp, bar, ask);
    } else {
      var rest := WatchMoves(t.state, cfg, inp, bar, tradeId);
      Prepend(s, cfg, inp, bar, ask, rest, true);
      moves := [ask] + rest;
    }
  }

  lemma MainMoves(s: Loop, cfg: Config, inp: Inputs, history: seq<Bar>) returns (moves: seq<Move>)
    requires history != []
    ensures DoAll(s, cfg, inp, history[|history| - 1], moves) == MainPath(s, cfg, inp, history).state
    ensures Shaped(moves, history[|history| - 1].close, MainPath(s, cfg, inp, history).completed)
    ensures s.tradesToday > 0 ==> NoActivity(moves)
  {
    var bar := history[|history| - 1];
    var order := GatedOrder(s, cfg, inp, history);
    if order.None? {
      moves := ActivityMoves(s, cfg, inp, bar, None);
    } else {
      SubmitCounts(s, cfg, inp, Base, order.value, bar);
      var t := Submit(s, cfg, inp, Base, order.value, bar);
      var ask := AskMove(Base, order.value);
      if t.raised {
        moves := [ask];
        DoOne(s, cfg, inp, bar, ask);
      } else {
        var rest := ActivityMoves(t.state, cfg, inp, bar, t.tradeId);
        Prepend(s, cfg, inp, bar, ask, rest, ActivityAndClose(t.state, cfg, inp, bar, t.tradeId).completed);
        moves := [ask] + rest;
      }
    }
  }

  lemma KolMoves(s: Loop, cfg: Config, inp: Inputs, history: seq<Bar>) returns (moves: seq<Move>)
    requires history != []
    ensures DoAll(s, cfg, inp, history[|history| - 1], moves) == KolPath(s, cfg, inp, history).state
    ensures Shaped(moves, history[|history| - 1].close, KolPath(s, cfg, inp, history).completed)
    ensures s.tradesToday > 0 ==> NoActivity(moves)
  {
    var bar := history[|history| - 1];
    var marked := MarkLoop(s, bar.close);
    var done := KolPath(s, cfg, inp, history).completed;
    if inp.kolOrder.None? && !inp.kolRefused {
      moves := MainMoves(s, cfg, inp, history);
    } else {
      if inp.kolOrder.None? {
        moves := MainMoves(marked, cfg, inp, history);
      } else {
        var ask := AskMove(Kol, inp.kolOrder.value);
        var t := Submit(marked, cfg, inp, Kol, inp.kolOrder.value, bar);
        SubmitCounts(marked, cfg, inp, Kol, inp.kolOrder.value, bar);
        if t.raised {
          moves := MainMoves(t.state, cfg, inp, history);
        } else {
          moves := [CloseMove(t.tradeId)];
          DoOne(t.state, cfg, inp, bar, moves[0]);
        }
        Prepend(marked, cfg, inp, bar, ask, moves, done);
        moves := [ask] + moves;
      }
      Prepend(s, cfg, inp, bar, MarkMove(bar.close), moves, done);
      moves := [MarkMove(bar.close)] + moves;
    }
  }

  /** Flattening: one sale of everything held, then the close unless it raised. */
  lemma FlattenMoves(s: Loop, cfg: Config, inp: Inputs, order: Order, bar: Bar) returns (moves: seq<Move>)
    ensures var t := Submit(s, cfg, inp, Autopilot, order, bar);
            && DoAll(s, cfg, inp, bar, moves)
               == (if t.raised then t.state else Finalise(t.state, cfg, inp, bar, t.tradeId))
            && Shaped(moves, bar.close, !t.raised) && NoActivity(moves)
  {
    var t := Submit(s, cfg, inp, Autopilot, order, bar);
    var ask, close := AskMove(Autopilot, order), CloseMove(t.tradeId);
    if t.raised {
      moves := [ask];
      DoOne(s, cfg, inp, bar, ask);
    } else {
      DoOne(t.state, cfg, inp, bar, close);
      Prepend(s, cfg, inp, bar, ask, [close], true);
      moves := [ask] + [close];
    }
  }

  /** What the autopilot's verdict leads to, once the entry gate is set. */
  lemma JudgedMoves(judged: Loop, cfg: Config, inp: Inputs, history: seq<Bar>) returns (moves: seq<Move>)
    requires history != [] && !inp.autopilot.Disabled?
    ensures var c := Judged(judged, cfg, inp, history);
            && DoAll(judged, cfg, inp, history[|history| - 1], moves) == c.state
            && Shaped(moves, history[|history| - 1].close, c.completed)
            && (judged.tradesToday > 0 ==> NoActivity(moves))
  {
    var bar := history[|history| - 1];
    var exposure := judged.ledger.Exposure(bar.close);
    if inp.autopilot.Flatten? && exposure > EXPOSURE_EPSILON {
      moves := FlattenMoves(judged, cfg, inp, Order(Sell, exposure, cfg.symbol, bar.timestamp), bar);
    } else if inp.autopilot.HaltDay? {
      moves := [CloseMove(None)];
      DoOne(judged, cfg, inp, bar, moves[0]);
    } else {
      moves := KolMoves(judged, cfg, inp, history);
    }
  }

  lemma AutopilotMoves(s: Loop, cfg: Config, inp: Inputs, history: seq<Bar>) returns (moves: seq<Move>)
    requires history != []
    ensures DoAll(s, cfg, inp, history[|history| - 1], moves) == AutopilotPath(s, cfg, inp, history).state
    ensures Shaped(moves, history[|history| - 1].close, AutopilotPath(s, cfg, inp, history).completed)
    ensures s.tradesToday > 0 ==> NoActivity(moves)
  {
    var bar := history[|history| - 1];
    var done := AutopilotPath(s, cfg, inp, history).completed;
    var gate := GateMove(inp.autopilot.BlockEntry?);
    if inp.autopilot.Disabled? {
      moves := KolMoves(s.(blockEntry := false), cfg, inp, history);
      Prepend(s, cfg, inp, bar, gate, moves, done);
      moves := [gate] + moves;
    } else {
      var marked := MarkLoop(s, bar.close);
      moves := JudgedMoves(marked.(blockEntry := inp.autopilot.BlockEntry?), cfg, inp, history);
      Prepend(marked, cfg, inp, bar, gate, moves, done);
      moves := [gate] + moves;
      Prepend(s, cfg, inp, bar, MarkMove(bar.close), moves, done);
      moves := [MarkMove(bar.close)] + moves;
    }
  }

  /** The normal form of a cycle. A halted cycle only closes: it never asks the executor. */
  lemma CycleMoves(s: Loop, cfg: Config, inp: Inputs, history: seq<Bar>) returns (moves: seq<Move>)
    requires history != []
    ensures var bar := history[|history| - 1];
            DoAll(Prepare(s, cfg, inp, bar), cfg, inp, bar, moves) == Cycle(s, cfg, inp, history).state
    ensures inp.floor.FloorHit? || inp.halted ==> moves == [CloseMove(None)]
    ensures Shaped(moves, history[|history| - 1].close, Cycle(s, cfg, inp, history).completed)
    ensures Prepare(s, cfg, inp, history[|history| - 1]).tradesToday > 0 ==> NoActivity(moves)
  {
    var bar := history[|history| - 1];
    var prepared := Prepare(s, cfg, inp, bar);
    if inp.floor.FloorHit? || inp.halted {
      moves := [CloseMove(None)];
      DoOne(prepared, cfg, inp, bar, moves[0]);
    } else {
      moves := AutopilotMoves(prepared, cfg, inp, history);
    }
  }

  // ---- what one submission writes ----

  /** How one submission may extend the log and the trade rows. */
  ghost predicate Wrote(a: Loop, b: Loop, key: Key, order: Order, inp: Inputs) {
    && b.mode == a.mode && b.pending == a.pending && b.activityDay == a.activityDay
    && b.store.decisions == a.store.decisions && b.curve == a.curve && b.stamps == a.stamps
    && b.seen == ExecuteOnce(a.seen, key, order, inp.venue(key, order)).seen
    && (|| (b.log == a.log + [Asked(key)] && Unfilled(a, b) && b.watch == a.watch)
        || (b.log == a.log + [Asked(key), Blocked(key)] && Unfilled(a, b) && b.watch == a.watch)
        || (b.log == a.log + [Asked(key), Simulated(key)] && Unfilled(a, b) && b.watch == a.watch)
        || WroteFailure(a, b, key)
        || WroteFill(a, b, key, order, inp))
  }

  ghost predicate Unfilled(a: Loop, b: Loop) {
    b.store == a.store && b.fills == a.fills && b.trades == a.trades && b.ledger == a.ledger && b.entry == a.entry
  }

  ghost predicate WroteFailure(a: Loop, b: Loop, key: Key) {
    && Unfilled(a, b)
    && |b.log| > |a.log| + 1 && b.log[|a.log| + 1].Failed?
    && var at := b.log[|a.log| + 1].at;
       && b.watch.since == (if a.watch.since.None? then Some(at) else a.watch.since)
       && b.watch.warned == a.watch.warned
       && if a.watch.failures + 1 >= ALERT_THRESHOLD
          then b.log == a.log + [Asked(key), Failed(key, at), FailureAlert] && b.watch.failures == 0
          else b.log == a.log + [Asked(key), Failed(key, at)] && b.watch.failures == a.watch.failures + 1
  }

  /** A fill always comes from the venue, under a key the table did not hold. */
  ghost predicate WroteFill(a: Loop, b: Loop, key: Key, order: Order, inp: Inputs) {
    var reply := inp.venue(key, order);
    && reply.IsFill() && CheckDupe(a.seen, key, order).None? && b.seen == a.seen[key := reply.report]
    && var fill := reply.report.fill.value;
       && b.fills == a.fills + [fill]
       && b.log == a.log + [Asked(key), Filled(key, fill, a.mode)]
       && b.watch == Watch(0, None, false)
       && b.ledger == Apply(a.ledger, fill).(peak := b.ledger.peak)
       && b.ledger.peak >= a.ledger.peak
       && WroteRows(a.store, b.store, RowOf(reply.report, fill, a.mode, key.timestamp), b.ledger.peak, inp)
  }

  ghost predicate WroteRows(a: Store, b: Store, row: TradeRow, peak: real, inp: Inputs) {
    if inp.recorded then
      && b.trades == a.trades + [row]
      && |b.ledger| == |a.ledger| + 1 && a.ledger <= b.ledger
      && b.ledger[|a.ledger|].peak == peak && b.ledger[|a.ledger|].timestamp == row.timestamp
      && b.decisions == a.decisions
    else b == a
  }

  lemma FillWrites(s: Loop, key: Key, report: Report, fill: Fill, bar: Bar, inp: Inputs)
    ensures var b := HandleFill(s, key, report, fill, bar, inp).state;
            && b.mode == s.mode && b.pending == s.pending && b.activityDay == s.activityDay
            && b.store.decisions == s.store.decisions && b.curve == s.curve && b.stamps == s.stamps
            && b.seen == s.seen
            && b.fills == s.fills + [fill]
            && b.log == s.log + [Filled(key, fill, s.mode)]
            && b.watch == Watch(0, None, false)
            && b.ledger == Apply(s.ledger, fill).(peak := b.ledger.peak)
            && b.ledger.peak >= s.ledger.peak
            && WroteRows(s.store, b.store, RowOf(report, fill, s.mode, bar.timestamp), b.ledger.peak, inp)
  {
    assert Apply(s.ledger, fill).peak == s.ledger.peak;
    PairWrites(Booked(s, fill), fill, Realized(s.ledger, fill), bar, inp);
  }

  /** Pairing moves only the round trip and, when a buy opens one under a live autopilot, the peak. */
  lemma PairWrites(a: Loop, fill: Fill, realized: real, bar: Bar, inp: Inputs)
    ensures var b := PairFill(a, fill, realized, bar, inp);
            && b == a.(ledger := b.ledger, entry := b.entry, trades := b.trades)
            && b.ledger == a.ledger.(peak := b.ledger.peak) && b.ledger.peak >= a.ledger.peak
  {
    MarkRaisesPeak(a.ledger, bar.close);
  }

  lemma SubmitWrites(s: Loop, cfg: Config, inp: Inputs, channel: Channel, order: Order, bar: Bar)
    ensures Wrote(s, Submit(s, cfg, inp, channel, order, bar).state,
                  Key(cfg.symbol, bar.timestamp, channel), order, inp)
  {
    var key := Key(cfg.symbol, bar.timestamp, channel);
    var o := ExecuteOnce(s.seen, key, order, inp.venue(key, order));
    var asked := Note(s, Asked(key)).(seen := o.seen);
    var b := Submit(s, cfg, inp, channel, order, bar).state;
    if o.reply.Answer? {
      AnswerWrites(s, asked, b, key, o.reply.report, order, bar, inp);
    }
    assert b.seen == o.seen;
  }

  lemma AnswerWrites(s: Loop, asked: Loop, b: Loop, key: Key, report: Report, order: Order, bar: Bar, inp: Inputs)
    requires asked == Note(s, Asked(key)).(seen := asked.seen)
    requires b == HandleExecution(asked, key, report, bar, inp).state
    requires Outcome(Answer(report), asked.seen) == ExecuteOnce(s.seen, key, order, inp.venue(key, order))
    requires key.timestamp == bar.timestamp
    ensures b.seen == asked.seen
    ensures Wrote(s, b, key, order, inp)
  {
    if report.IsFill() {
      FillWrites(asked, key, report, report.fill.value, bar, inp);
      assert WroteFill(s, b, key, order, inp);
    } else if report.status.FAILED? {
      FailureWrites(s, asked, b, key, report.order.timestamp);
    } else {
      NoteWrites(s, asked, b, key);
    }
  }

  /** A report that is neither fill nor failure leaves at most a note. */
  lemma NoteWrites(s: Loop, asked: Loop, b: Loop, key: Key)
    requires asked == Note(s, Asked(key)).(seen := asked.seen)
    requires b == asked || b == Note(asked, Blocked(key)) || b == Note(asked, Simulated(key))
    ensures Unfilled(s, b) && b.watch == s.watch
    ensures b.log == s.log + [Asked(key)] || b.log == s.log + [Asked(key), Blocked(key)]
            || b.log == s.log + [Asked(key), Simulated(key)]
    ensures b == s.(log := b.log, seen := b.seen)
  {
  }

  lemma FailureWrites(s: Loop, asked: Loop, b: Loop, key: Key, at: int)
    requires asked == Note(s, Asked(key)).(seen := asked.seen)
    requires b == CountFailure(asked, key, at)
    ensures WroteFailure(s, b, key)
    ensures b.mode == s.mode && b.pending == s.pending && b.activityDay == s.activityDay
    ensures b.store == s.store && b.curve == s.curve && b.stamps == s.stamps
  {
    assert b.log[|s.log| + 1] == Failed(key, at);
  }

  // ---- what the preparation writes ----

  /** Marks and day rolls never touch the accounts themselves. */
  ghost predicate SameBooks(a: Ledger, b: Ledger) {
    b == a.(peak := b.peak, day := b.day, dayStart := b.dayStart) && b.peak >= a.peak
  }

  lemma RollOverWrites(s: Loop, bar: Bar)
    ensures var r := RollOver(s, bar);
            && r == s.(ledger := r.ledger, activityDay := bar.timestamp / DAY_MS,
                       tradesToday := if r.activityDay == s.activityDay then s.tradesToday else 0)
            && SameBooks(s.ledger, r.ledger)
  {
  }

  function WatchEvents(w: Watch, now: int): seq<Event> {
    if w.since.None? || now - w.since.value < WARN_MS then []
    else
      (if w.warned then [] else [FailureWarned(now)])
      + (if now - w.since.value >= HALT_MS then [AutoHalted(now, w.since.value)] else [])
  }

  function WatchAfter(w: Watch, now: int): Watch {
    if w.since.None? || now - w.since.value < WARN_MS then w
    else if now - w.since.value >= HALT_MS then w.(since := None, warned := false)
    else w.(warned := true)
  }

  lemma CheckWrites(s: Loop, now: int)
    ensures CheckSustainedFailure(s, now)
         == s.(log := s.log + WatchEvents(s.watch, now), watch := WatchAfter(s.watch, now))
  {
    assert s.log + [FailureWarned(now)] + (if s.watch.since.Some? then [AutoHalted(now, s.watch.since.value)] else [])
        == s.log + ([FailureWarned(now)] +
                    (if s.watch.since.Some? then [AutoHalted(now, s.watch.since.value)] else []));
  }

  /** The toggle's one event, if any, and what it does to mode and pending target. */
  ghost predicate Toggled(a: Loop, b: Loop, cfg: Config, inp: Inputs, exposed: bool, events: seq<Event>) {
    && b == a.(log := a.log + events, mode := b.mode, pending := b.pending, seen := b.seen)
    && (b.mode == a.mode ==> b.seen == a.seen)
    && if !cfg.switching then b == a && events == []
       else if inp.desired == None || inp.desired == Some(a.mode) then
         events == [] && b.mode == a.mode && b.pending == None
       else if exposed then
         && b.mode == a.mode && b.pending == inp.desired
         && events == (if a.pending == inp.desired then [] else [ModeDeferred(inp.desired.value)])
       else if inp.rebuilds then
         && events == [ModeSwitched(inp.desired.value)] && Some(b.mode) == inp.desired
         && b.seen == map[] && b.pending == None
       else events == [RebuildFailed(inp.desired.value)] && b.mode == a.mode && b.pending == a.pending
  }

  lemma SyncWrites(s: Loop, cfg: Config, inp: Inputs, close: real) returns (events: seq<Event>)
    ensures Toggled(s, SyncMode(s, cfg, inp, close), cfg, inp, s.ledger.Exposure(close) > EXPOSURE_EPSILON, events)
  {
    var t := SyncMode(s, cfg, inp, close);
    events := t.log[|s.log|..];
  }

  ghost predicate Prepared(s: Loop, p: Loop, cfg: Config, inp: Inputs, bar: Bar, events: seq<Event>) {
    var checked := s.(log := s.log + WatchEvents(s.watch, bar.timestamp), watch := WatchAfter(s.watch, bar.timestamp));
    && SameBooks(s.ledger, p.ledger)
    && Toggled(checked, p.(ledger := s.ledger, activityDay := s.activityDay, tradesToday := s.tradesToday),
               cfg, inp, s.ledger.Exposure(bar.close) > EXPOSURE_EPSILON, events)
    && p.activityDay == bar.timestamp / DAY_MS
    && p.tradesToday == (if p.activityDay == s.activityDay then s.tradesToday else 0)
  }

  lemma PrepareWrites(s: Loop, cfg: Config, inp: Inputs, bar: Bar) returns (events: seq<Event>)
    ensures Prepared(s, Prepare(s, cfg, inp, bar), cfg, inp, bar, events)
  {
    var r := RollOver(s, bar);
    RollOverWrites(s, bar);
    var c := CheckSustainedFailure(r, bar.timestamp);
    CheckWrites(r, bar.timestamp);
    var t := SyncMode(c, cfg, inp, bar.close);
    events := SyncWrites(c, cfg, inp, bar.close);
    MarkRaisesPeak(t.ledger, bar.close);
    assert r.ledger.units == s.ledger.units;
    assert SameBooks(s.ledger, t.ledger);
  }

  /** Closing a cycle writes a decision and an equity point, and at most raises the peak. */
  lemma CloseWrites(s: Loop, cfg: Config, inp: Inputs, bar: Bar, tradeId: Option<nat>)
    ensures var t := Finalise(s, cfg, inp, bar, tradeId);
            && t == s.(ledger := t.ledger, store := t.store, curve := t.curve, stamps := t.stamps)
            && t.store.trades == s.store.trades && t.store.ledger == s.store.ledger
            && SameBooks(s.ledger, t.ledger) && t.ledger.peak >= s.ledger.Equity(bar.close)
  {
    MarkRaisesPeak(s.ledger, bar.close);
  }

  // ---- traces ----

  function After(s: Loop, cfg: Config, step: Step): Loop { Cycle(s, cfg, step.inputs, step.history).state }

  lemma RunSnoc(s: Loop, before: Loop, cfg: Config, done: seq<Step>, step: Step)
    requires before == RunSteps(s, cfg, done)
    ensures RunSteps(s, cfg, done + [step]) == After(before, cfg, step)
  {
    assert (done + [step])[..|done|] == done;
  }

  function Advancing(cfg: Config): (Loop, Step) -> Loop { (s, step) => After(s, cfg, step) }

  function Chain(s: Loop, next: (Loop, Step) -> Loop, steps: seq<Step>): (states: seq<Loop>)
    ensures |states| == |steps| + 1 && states[0] == s
  {
    if steps == [] then [s]
    else
      var before := Chain(s, next, steps[..|steps| - 1]);
      before + [next(before[|steps| - 1], steps[|steps| - 1])]
  }

  /** The states of a run, one before each cycle and one after the last. */
  function Trace(s: Loop, cfg: Config, steps: seq<Step>): (states: seq<Loop>)
    ensures |states| == |steps| + 1 && states[0] == s
  {
    Chain(s, Advancing(cfg), steps)
  }

  /** A trace ends where the run ends. */
  lemma {:induction false} TraceEnds(s: Loop, cfg: Config, steps: seq<Step>)
    ensures Trace(s, cfg, steps)[|steps|] == RunSteps(s, cfg, steps)
  {
    if steps != [] {
      TraceEnds(s, cfg, steps[..|steps| - 1]);
    }
  }

  lemma {:induction false} ChainNext(s: Loop, next: (Loop, Step) -> Loop, steps: seq<Step>, i: nat)
    requires i < |steps|
    ensures Chain(s, next, steps)[i + 1] == next(Chain(s, next, steps)[i], steps[i])
    decreases |steps|
  {
    if i < |steps| - 1 {
      ChainNext(s, next, steps[..|steps| - 1], i);
    }
  }

  lemma TraceNext(s: Loop, cfg: Config, steps: seq<Step>, i: nat)
    requires i < |steps|
    ensures Trace(s, cfg, steps)[i + 1] == After(Trace(s, cfg, steps)[i], cfg, steps[i])
  {
    ChainNext(s, Advancing(cfg), steps, i);
  }

  /** From `s`, preparation gives `p`, and the moves give `t`. */
  ghost predicate CycleVia(s: Loop, t: Loop, cfg: Config, step: Step, p: Loop, events: seq<Event>, moves: seq<Move>) {
    && Prepared(s, p, cfg, step.inputs, step.Bar(), events)
    && t == DoAll(p, cfg, step.inputs, step.Bar(), moves)
    && (step.inputs.floor.FloorHit? || step.inputs.halted ==> moves == [CloseMove(None)])
    && (p.tradesToday > 0 ==> NoActivity(moves))
  }

  /** `t` is what one cycle makes of `s`, described by its preparation and moves. */
  ghost predicate Cycles(s: Loop, t: Loop, cfg: Config, step: Step) {
    exists p, events, moves :: CycleVia(s, t, cfg, step, p, events, moves)
  }

  lemma CycleCycles(s: Loop, cfg: Config, step: Step)
    ensures Cycles(s, After(s, cfg, step), cfg, step)
  {
    var p := Prepare(s, cfg, step.inputs, step.Bar());
    var events := PrepareWrites(s, cfg, step.inputs, step.Bar());
    var moves := CycleMoves(s, cfg, step.inputs, step.history);
    assert CycleVia(s, After(s, cfg, step), cfg, step, p, events, moves);
  }

  /** Neighbouring states are one cycle apart. */
  ghost predicate Follows(states: seq<Loop>, cfg: Config, steps: seq<Step>) {
    && |states| == |steps| + 1
    && forall i | 0 <= i < |steps| :: Cycles(states[i], states[i + 1], cfg, steps[i])
  }

  lemma AfterCycles(s: Loop, t: Loop, cfg: Config, step: Step)
    requires t == After(s, cfg, step)
    ensures Cycles(s, t, cfg, step)
  {
    CycleCycles(s, cfg, step);
  }

  /** Whatever the loop, the function makes one normal-form cycle of it. */
  ghost predicate MakesCycles(next: (Loop, Step) -> Loop, cfg: Config) {
    forall a, step :: Cycles(a, next(a, step), cfg, step)
  }

  lemma ChainFollows(s: Loop, next: (Loop, Step) -> Loop, cfg: Config, steps: seq<Step>)
    requires MakesCycles(next, cfg)
    ensures Follows(Chain(s, next, steps), cfg, steps)
  {
    var states := Chain(s, next, steps);
    forall i: nat | i < |steps|
      ensures Cycles(states[i], states[i + 1], cfg, steps[i])
    {
      ChainNext(s, next, steps, i);
      assert Cycles(states[i], next(states[i], steps[i]), cfg, steps[i]);
    }
  }

  /** Every run is a chain of normal-form cycles. */
  lemma TraceFollows(s: Loop, cfg: Config, steps: seq<Step>)
    ensures Follows(Trace(s, cfg, steps), cfg, steps)
  {
    forall a: Loop, step: Step
      ensures Cycles(a, Advancing(cfg)(a, step), cfg, step)
    {
      AfterCycles(a, Advancing(cfg)(a, step), cfg, step);
    }
    ChainFollows(s, Advancing(cfg), cfg, steps);
  }
}
