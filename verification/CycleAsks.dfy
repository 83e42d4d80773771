/**
 What a cycle does, read off the state it starts from and its inputs without following its steps: which orders it puts
 to the executor, what is noted of the answers, and every figure it leaves in the books.
 */
module CycleAsks {
  import opened Market
  import opened Ledgers
  import opened Executors
  import opened Loops
  import opened LoopMoves
  import opened ModeSafety
  import opened ActivityDay
  import opened KeyTables

  // ---- what a cycle asks for ----

  function CycleKey(cfg: Config, step: Step, channel: Channel): Key { Key(cfg.symbol, step.Bar().timestamp, channel) }

  /** The executor's table once the toggle was followed. */
  function TableOf(s: Loop, cfg: Config, step: Step): Seen { if Switches(s, cfg, step) then map[] else s.seen }

  /** The history with the live score, where there is one, on its last bar. */
  function Shown(step: Step): seq<Bar> {
    match step.inputs.social
    case None => step.history
    case Some(score) =>
      if score == 0.0 then step.history
      else step.history[|step.history| - 1 := step.Bar().(socialScore := score)]
  }

  /** The strategy's order on that history, unless it is a blocked entry, as the size gates leave it. */
  function Wanted(cfg: Config, step: Step): Option<Order> {
    match cfg.strategy(Shown(step))
    case None => None
    case Some(order) =>
      if step.inputs.autopilot.BlockEntry? && order.side.Buy? then None else step.inputs.gate(order)
  }

  predicate Runs(step: Step) { !step.inputs.floor.FloorHit? && !step.inputs.halted }

  predicate Flattens(s: Loop, step: Step) { Runs(step) && step.inputs.autopilot.Flatten? && Exposed(s, step) }

  /** Neither stopped nor flattened: the social overlay may speak. */
  predicate Listens(s: Loop, step: Step) { Runs(step) && !Flattens(s, step) && !step.inputs.autopilot.HaltDay? }

  /** What the venue answers an order on a channel, if the table leaves it to the venue. */
  function Heard(s: Loop, cfg: Config, step: Step, channel: Channel, order: Option<Order>): Option<Reply> {
    var key := CycleKey(cfg, step, channel);
    if order.None? || Remembers(TableOf(s, cfg, step), key) then None else Some(step.inputs.venue(key, order.value))
  }

  predicate Raised(heard: Option<Reply>) { heard.Some? && heard.value.Raises? }

  /** The filled report, if that is the answer. */
  function Filling(heard: Option<Reply>): Option<Report> {
    if heard.Some? && heard.value.IsFill() then Some(heard.value.report) else None
  }

  /** The social overlay stays silent, or the venue raises on its order. */
  predicate Decides(s: Loop, cfg: Config, step: Step) {
    Listens(s, step) && (step.inputs.kolOrder.None? || Raised(Heard(s, cfg, step, Kol, step.inputs.kolOrder)))
  }

  /** Late on a day without trades: sell what is held, or open from flat, but no more than the configured minimum. */
  function Forced(s: Loop, cfg: Config, step: Step): Option<Order> {
    var bar := step.Bar();
    var held := s.ledger.Exposure(bar.close);
    var late := bar.timestamp / HOUR_MS % 24 >= cfg.activityHour;
    var due := cfg.activityFloor && CarriedOver(s, Day(step)) == 0 && late;
    if due && step.inputs.allowlisted && cfg.activityUsd > 0.0 then
      if held > 0.0 then Some(Order(Sell, Min(held, cfg.activityUsd), cfg.symbol, bar.timestamp))
      else if step.inputs.guardrails then Some(Order(Buy, cfg.activityUsd, cfg.symbol, bar.timestamp))
      else None
    else None
  }

  /** The order a cycle puts to the executor on a channel, if any. */
  function Asks(s: Loop, cfg: Config, step: Step, channel: Channel): Option<Order> {
    match channel
    case Autopilot =>
      if Flattens(s, step)
      then Some(Order(Sell, s.ledger.Exposure(step.Bar().close), cfg.symbol, step.Bar().timestamp)) else None
    case Kol => if Listens(s, step) then step.inputs.kolOrder else None
    case Base => if Decides(s, cfg, step) then Wanted(cfg, step) else None
    case Activity =>
      var heard := Heard(s, cfg, step, Base, Wanted(cfg, step));
      if Decides(s, cfg, step) && !Raised(heard) && Filling(heard).None? then Forced(s, cfg, step) else None
  }

  // ---- what it leaves ----

  function ModeOf(s: Loop, cfg: Config, step: Step): Mode {
    if Switches(s, cfg, step) then step.inputs.desired.value else s.mode
  }

  /** A request and what is noted of its answer; a raise leaves no note. */
  function Noted(order: Option<Order>, key: Key, heard: Option<Reply>, mode: Mode): seq<Event> {
    if order.None? then []
    else
      [Asked(key)]
      + match heard
        case None => [Blocked(key)]
        case Some(Raises) => []
        case Some(Answer(report)) =>
          if report.IsFill() then [Filled(key, report.fill.value, mode)]
          else
            match report.status
            case FAILED => [Failed(key, report.order.timestamp)]
            case SIMULATED => [Simulated(key)]
            case FILLED => []
            case _ => [Blocked(key)]
  }

  /** The account, the round trips and the rows. */
  datatype Books = Books(ledger: Ledger, fills: seq<Fill>, entry: Option<Fill>, trades: seq<Trade>,
                         tradeRows: seq<TradeRow>, ledgerRows: seq<LedgerRow>)

  function BooksOf(s: Loop): Books {
    Books(s.ledger, s.fills, s.entry, s.trades, s.store.trades, s.store.ledger)
  }

  /** The preparation looks where a day ends, and where there is a floor. */
  predicate LooksAtOnce(s: Loop, step: Step) {
    (Day(step) != s.activityDay && s.activityDay != -1) || !step.inputs.floor.NoFloor?
  }

  /** The peak before any trade: a new day values the account at its open; the close counts if the cycle looked. */
  function PeakTo(s: Loop, step: Step, valued: bool): real {
    var bar, peak := step.Bar(), s.ledger.peak;
    var rolled := if Day(step) != s.activityDay then Max(peak, s.ledger.Equity(bar.open)) else peak;
    if valued then Max(rolled, s.ledger.Equity(bar.close)) else rolled
  }

  /** The ledger before any trade of the cycle. */
  function Rolled(s: Loop, step: Step, valued: bool): Ledger {
    s.ledger.(peak := PeakTo(s, step, valued), day := Day(step),
              dayStart := if s.ledger.day == Day(step) then s.ledger.dayStart else s.ledger.Equity(step.Bar().open))
  }

  /** With the fill booked; a purchase that opens a round trip is valued at once where the autopilot is on. */
  function Bought(l: Ledger, fill: Fill, opens: bool, step: Step): Ledger {
    var after := Apply(l, fill);
    if opens && !step.inputs.autopilot.Disabled?
    then after.(peak := Max(after.peak, after.Equity(step.Bar().close))) else after
  }

  /** The books after the cycle's trade, if it made one. */
  function AfterTrade(s: Loop, cfg: Config, step: Step, report: Option<Report>, valued: bool): Books
    requires report.Some? ==> report.value.fill.Some?
  {
    var before := BooksOf(s).(ledger := Rolled(s, step, valued));
    if report.None? then before
    else
      var r, f, at := report.value, report.value.fill.value, step.Bar().timestamp;
      var sale := f.order.side.Sell?;
      var ledger := Bought(before.ledger, f, !sale && s.entry.None?, step);
      var realized := ledger.realizedTotal - s.ledger.realizedTotal;
      Books(ledger, s.fills + [f],
            if sale then None else if s.entry.Some? then s.entry else Some(f),
            s.trades + (if sale && s.entry.Some? then [Trade(s.entry.value, f, realized)] else []),
            s.store.trades + (if step.inputs.recorded then [Row(r, f, ModeOf(s, cfg, step), at)] else []),
            s.store.ledger + (if step.inputs.recorded
                              then [LedgerRow(|s.store.trades|, realized, ledger.peak, at)] else []))
  }

  /** The row of a filled report. */
  function Row(r: Report, f: Fill, mode: Mode, at: int): TradeRow {
    TradeRow(r.order.side, r.order.sizeUsd, r.order.symbol, f.price, f.costs, mode, r.txHash, at)
  }

  // ---- the notes in the log ----

  /** Requests and what came of them, as opposed to the watchdog's and the toggle's entries. */
  predicate IsNote(e: Event) { e.Asked? || e.Filled? || e.Simulated? || e.Blocked? || e.Failed? }

  function Notes(log: seq<Event>): seq<Event> {
    if log == [] then []
    else Notes(log[..|log| - 1]) + if IsNote(log[|log| - 1]) then [log[|log| - 1]] else []
  }

  lemma {:induction false} NotesConcat(a: seq<Event>, b: seq<Event>)
    ensures Notes(a + b) == Notes(a) + Notes(b)
  {
    if b == [] {
      assert a + b == a;
    } else {
      assert (a + b)[..|a + b| - 1] == a + b[..|b| - 1];
      NotesConcat(a, b[..|b| - 1]);
    }
  }

  lemma {:induction false} NothingNoted(events: seq<Event>)
    requires forall e | e in events :: !IsNote(e)
    ensures Notes(events) == []
  {
    if events != [] {
      NothingNoted(events[..|events| - 1]);
    }
  }

  lemma {:induction false} AllNoted(events: seq<Event>)
    requires forall i | 0 <= i < |events| :: IsNote(events[i])
    ensures Notes(events) == events
  {
    if events != [] {
      AllNoted(events[..|events| - 1]);
      assert IsNote(events[|events| - 1]) && events == events[..|events| - 1] + [events[|events| - 1]];
    }
  }

  /** The log grew by exactly these notes, in this order, among other things. */
  ghost predicate NotedSince(a: Loop, b: Loop, notes: seq<Event>) {
    a.log <= b.log && Notes(Since(a, b)) == notes
  }

  lemma NotedTransitive(a: Loop, b: Loop, c: Loop, notes: seq<Event>, more: seq<Event>)
    requires NotedSince(a, b, notes) && NotedSince(b, c, more)
    ensures NotedSince(a, c, notes + more)
  {
    assert Since(a, c) == Since(a, b) + Since(b, c);
    NotesConcat(Since(a, b), Since(b, c));
  }

  lemma LogExtended(a: Loop, b: Loop, notes: seq<Event>, alert: bool)
    requires b.log == a.log + (notes + if alert then [FailureAlert] else []) && forall e | e in notes :: IsNote(e)
    ensures NotedSince(a, b, notes)
  {
    var rest := if alert then [FailureAlert] else [];
    assert Since(a, b) == notes + rest;
    NotesConcat(notes, rest);
    AllNoted(notes);
    NothingNoted(rest);
  }

  // ---- one request ----

  /** What the venue is heard to answer from table `seen`. */
  function HeardFrom(seen: Seen, key: Key, reply: Reply): Option<Reply> {
    if Remembers(seen, key) then None else Some(reply)
  }

  /** Nothing but log, watchdog and table changed. */
  ghost predicate OnlyNoted(q: Loop, t: Loop) {
    t == q.(log := t.log, watch := t.watch, seen := t.seen)
  }

  /** One request, answered by the table or the venue, and what it notes. */
  lemma RequestNotes(q: Loop, cfg: Config, inp: Inputs, channel: Channel, order: Order, bar: Bar)
    ensures var t, key := Submit(q, cfg, inp, channel, order, bar), Key(cfg.symbol, bar.timestamp, channel);
            var heard := HeardFrom(q.seen, key, inp.venue(key, order));
            && NotedSince(q, t.state, Noted(Some(order), key, heard, q.mode))
            && t.raised == Raised(heard)
            && (forall k: Key | k != key :: Remembers(t.state.seen, k) == Remembers(q.seen, k))
            && (Filling(heard).None? ==> OnlyNoted(q, t.state) && t.tradeId == None)
  {
    var t, key := Submit(q, cfg, inp, channel, order, bar), Key(cfg.symbol, bar.timestamp, channel);
    var reply := inp.venue(key, order);
    if Remembers(q.seen, key) {
      KnownKeySubmits(q, cfg, inp, channel, order, bar);
      LogExtended(q, t.state, [Asked(key), Blocked(key)], false);
    } else {
      NewKeySubmits(q, cfg, inp, channel, order, bar);
      var asked := Note(q, Asked(key)).(seen := ExecuteOnce(q.seen, key, order, reply).seen);
      NewRequestNotes(q, asked, t, key, reply, order, bar, inp);
    }
  }

  lemma NewRequestNotes(q: Loop, asked: Loop, t: Traded, key: Key, reply: Reply, order: Order, bar: Bar, inp: Inputs)
    requires asked == Note(q, Asked(key)).(seen := ExecuteOnce(q.seen, key, order, reply).seen)
    requires !Remembers(q.seen, key)
    requires t == if reply.Raises? then Traded(asked, None, true)
                  else var h := HandleExecution(asked, key, reply.report, bar, inp); Traded(h.state, h.tradeId, false)
    ensures NotedSince(q, t.state, Noted(Some(order), key, Some(reply), q.mode)) && t.raised == reply.Raises?
    ensures forall k: Key | k != key :: Remembers(t.state.seen, k) == Remembers(q.seen, k)
    ensures Filling(Some(reply)).None? ==> OnlyNoted(q, t.state) && t.tradeId == None
  {
    if reply.Raises? {
      LogExtended(q, asked, [Asked(key)], false);
    } else {
      AnswerNotes(q, asked, key, reply.report, order, bar, inp);
    }
  }

  lemma AnswerNotes(q: Loop, asked: Loop, key: Key, report: Report, order: Order, bar: Bar, inp: Inputs)
    requires asked == Note(q, Asked(key)).(seen := asked.seen)
    ensures var h, heard := HandleExecution(asked, key, report, bar, inp), Some(Reply.Answer(report));
            && NotedSince(q, h.state, Noted(Some(order), key, heard, q.mode))
            && h.state.seen == asked.seen
            && (Filling(heard).None? ==> OnlyNoted(q, h.state) && h.tradeId == None)
  {
    var h := HandleExecution(asked, key, report, bar, inp);
    var notes := Noted(Some(order), key, Some(Reply.Answer(report)), q.mode);
    if report.IsFill() {
      FillWrites(asked, key, report, report.fill.value, bar, inp);
      LogExtended(q, h.state, notes, false);
    } else {
      NoFillOnlyNotes(asked, key, report, bar, inp);
      LogExtended(q, h.state, notes, report.status.FAILED? && asked.watch.failures + 1 >= ALERT_THRESHOLD);
    }
  }

  // ---- between the steps ----

  /** So far the cycle noted this, made at most this trade, and closed nothing. */
  ghost predicate Reached(s: Loop, q: Loop, cfg: Config, step: Step, notes: seq<Event>, report: Option<Report>,
                          valued: bool) {
    && (report.Some? ==> report.value.IsFill())
    && NotedSince(s, q, notes) && BooksOf(q) == AfterTrade(s, cfg, step, report, valued)
    && q.store.decisions == s.store.decisions && q.curve == s.curve && q.stamps == s.stamps
    && q.tradesToday == CarriedOver(s, Day(step)) + (if report.Some? then 1 else 0)
  }

  /** Nothing traded yet; the table is as it was but for the keys asked. */
  ghost predicate Ready(s: Loop, q: Loop, cfg: Config, step: Step, notes: seq<Event>, asked: set<Key>, valued: bool) {
    && Reached(s, q, cfg, step, notes, None, valued)
    && q.mode == ModeOf(s, cfg, step) && q.blockEntry == step.inputs.autopilot.BlockEntry?
    && forall k: Key | k !in asked :: Remembers(q.seen, k) == Remembers(TableOf(s, cfg, step), k)
  }

  lemma LookFromReady(s: Loop, q: Loop, cfg: Config, step: Step, notes: seq<Event>, asked: set<Key>, valued: bool)
    requires Ready(s, q, cfg, step, notes, asked, valued)
    ensures Ready(s, MarkLoop(q, step.Bar().close), cfg, step, notes, asked, true)
  {
    MarkRaisesPeak(q.ledger, step.Bar().close);
  }

  /** The trade a request makes of untouched books. */
  lemma FillFromReady(s: Loop, q: Loop, asked: Loop, cfg: Config, step: Step, notes: seq<Event>, keys: set<Key>,
                      valued: bool, key: Key, report: Report)
    requires Ready(s, q, cfg, step, notes, keys, valued) && report.IsFill()
    requires asked == Note(q, Asked(key)).(seen := asked.seen)
    ensures var h := HandleFill(asked, key, report, report.fill.value, step.Bar(), step.inputs);
            && BooksOf(h.state) == AfterTrade(s, cfg, step, Some(report), valued)
            && h.state.store.decisions == s.store.decisions && h.state.curve == s.curve && h.state.stamps == s.stamps
            && h.state.tradesToday == CarriedOver(s, Day(step)) + 1
            && h.tradeId == if step.inputs.recorded then Some(|s.store.trades|) else None
  {
    FillBooks(asked, key, report, report.fill.value, step);
  }

  /** What a fill does to a loop, whatever came before. */
  lemma FillBooks(a: Loop, key: Key, report: Report, f: Fill, step: Step)
    ensures var h, sale := HandleFill(a, key, report, f, step.Bar(), step.inputs), f.order.side.Sell?;
            var b := h.state;
            var realized := b.ledger.realizedTotal - a.ledger.realizedTotal;
            && b.ledger == Bought(a.ledger, f, !sale && a.entry.None?, step)
            && b.fills == a.fills + [f] && b.tradesToday == a.tradesToday + 1
            && b.entry == (if sale then None else if a.entry.Some? then a.entry else Some(f))
            && b.trades == a.trades + (if sale && a.entry.Some? then [Trade(a.entry.value, f, realized)] else [])
            && b.curve == a.curve && b.stamps == a.stamps
            && h == RecordTrade(a.(ledger := b.ledger, fills := b.fills, entry := b.entry,
                                   trades := b.trades, log := b.log, watch := b.watch, tradesToday := b.tradesToday),
                                report, f, realized, step.Bar(), step.inputs)
  {
    RealizedIsDifference(a.ledger, f);
    MarkRaisesPeak(Apply(a.ledger, f), step.Bar().close);
  }

  lemma RealizedIsDifference(l: Ledger, f: Fill)
    ensures Apply(l, f).realizedTotal - l.realizedTotal == Realized(l, f)
  {
  }

  lemma RequestFromReady(s: Loop, q: Loop, t: Traded, cfg: Config, step: Step, notes: seq<Event>, asked: set<Key>,
                         valued: bool, channel: Channel, order: Order)
    requires Ready(s, q, cfg, step, notes, asked, valued) && CycleKey(cfg, step, channel) !in asked
    requires t == Submit(q, cfg, step.inputs, channel, order, step.Bar())
    ensures var key, heard := CycleKey(cfg, step, channel), Heard(s, cfg, step, channel, Some(order));
            var more := notes + Noted(Some(order), key, heard, ModeOf(s, cfg, step));
            && t.raised == Raised(heard)
            && t.tradeId == (if Filling(heard).Some? && step.inputs.recorded then Some(|s.store.trades|) else None)
            && Reached(s, t.state, cfg, step, more, Filling(heard), valued)
            && (Filling(heard).None? ==> Ready(s, t.state, cfg, step, more, asked + {key}, valued))
  {
    var key, inp, bar := CycleKey(cfg, step, channel), step.inputs, step.Bar();
    var heard := HeardFrom(q.seen, key, inp.venue(key, order));
    RequestNotes(q, cfg, inp, channel, order, bar);
    NotedTransitive(s, q, t.state, notes, Noted(Some(order), key, heard, q.mode));
    if Filling(heard).Some? {
      NewKeySubmits(q, cfg, inp, channel, order, bar);
      var reply := inp.venue(key, order);
      FillFromReady(s, q, Note(q, Asked(key)).(seen := ExecuteOnce(q.seen, key, order, reply).seen), cfg, step, notes,
                    asked, valued, key, reply.report);
    }
  }

  lemma PreparedIsReady(s: Loop, p: Loop, cfg: Config, step: Step)
    requires p == Prepare(s, cfg, step.inputs, step.Bar())
    ensures Ready(s, p.(blockEntry := step.inputs.autopilot.BlockEntry?), cfg, step, [], {}, LooksAtOnce(s, step))
  {
    PreparedMode(s, cfg, step);
    var events := PrepareWrites(s, cfg, step.inputs, step.Bar());
    QuietPreparation(s, p, cfg, step, events);
    PreparationNotesNothing(s, p, cfg, step, events);
    PreparedBooks(s, cfg, step);
  }

  lemma PreparationNotesNothing(s: Loop, p: Loop, cfg: Config, step: Step, events: seq<Event>)
    requires Prepared(s, p, cfg, step.inputs, step.Bar(), events)
    ensures NotedSince(s, p, [])
  {
    var watch := WatchEvents(s.watch, step.Bar().timestamp);
    assert p.log == s.log + (watch + events);
    OwnEntriesOnly(s, p, watch, events);
  }

  /** The watchdog's and the toggle's entries are no notes. */
  lemma OwnEntriesOnly(s: Loop, p: Loop, watch: seq<Event>, events: seq<Event>)
    requires p.log == s.log + (watch + events)
    requires forall e | e in watch :: e.FailureWarned? || e.AutoHalted?
    requires forall e | e in events :: e.ModeDeferred? || e.ModeSwitched? || e.RebuildFailed?
    ensures NotedSince(s, p, [])
  {
    assert Since(s, p) == watch + events;
    NothingNoted(watch + events);
  }

  lemma PreparedBooks(s: Loop, cfg: Config, step: Step)
    ensures var p := Prepare(s, cfg, step.inputs, step.Bar());
            && p == s.(ledger := Rolled(s, step, LooksAtOnce(s, step)), seen := p.seen, mode := p.mode,
                       pending := p.pending, log := p.log, watch := p.watch, activityDay := Day(step),
                       tradesToday := CarriedOver(s, Day(step)))
  {
    var bar := step.Bar();
    var r := RollOver(s, bar);
    var c := CheckSustainedFailure(r, bar.timestamp);
    CheckWrites(r, bar.timestamp);
    var t := SyncMode(c, cfg, step.inputs, bar.close);
    var events := SyncWrites(c, cfg, step.inputs, bar.close);
    RolledBooks(s, step);
    MarkRaisesPeak(t.ledger, bar.close);
  }

  lemma RolledBooks(s: Loop, step: Step)
    ensures RollOver(s, step.Bar())
         == s.(ledger := Rolled(s, step, Day(step) != s.activityDay && s.activityDay != -1),
               activityDay := Day(step), tradesToday := CarriedOver(s, Day(step)))
  {
  }

  // ---- the ends of a cycle ----

  /** Closing values the account once more, at the close. */
  function Valued(b: Books, close: real): Books {
    b.(ledger := b.ledger.(peak := Max(b.ledger.peak, b.ledger.Equity(close))))
  }

  /** The row of the cycle's decision; it names the trade unless the activity rule made it. */
  function Decision(s: Loop, cfg: Config, step: Step, named: bool): DecisionRow {
    DecisionRow(CycleKey(cfg, step, Base), step.Bar().timestamp,
                if named && step.inputs.recorded then Some(|s.store.trades|) else None)
  }

  ghost predicate Closed(s: Loop, t: Loop, cfg: Config, step: Step, books: Books, named: bool) {
    && BooksOf(t) == Valued(books, step.Bar().close)
    && t.curve == s.curve + [t.ledger.Equity(step.Bar().close)] && t.stamps == s.stamps + [step.Bar().timestamp]
    && t.store.decisions == if step.inputs.recorded
                            then RecordDecision(s.store.decisions, Decision(s, cfg, step, named)) else s.store.decisions
  }

  /** A raise leaves everything open. */
  ghost predicate Broken(s: Loop, t: Loop, books: Books) {
    BooksOf(t) == books && t.curve == s.curve && t.stamps == s.stamps && t.store.decisions == s.store.decisions
  }

  /** What a cycle that started from `s` came to. */
  ghost predicate CameTo(s: Loop, c: Cycled, cfg: Config, step: Step, notes: seq<Event>, report: Option<Report>,
                         valued: bool, named: bool, completed: bool)
    requires report.Some? ==> report.value.IsFill()
  {
    && NotedSince(s, c.state, notes) && c.completed == completed
    && c.state.tradesToday == CarriedOver(s, Day(step)) + (if report.Some? then 1 else 0)
    && if completed then Closed(s, c.state, cfg, step, AfterTrade(s, cfg, step, report, valued), named)
       else Broken(s, c.state, AfterTrade(s, cfg, step, report, valued))
  }

  lemma ClosesFrom(s: Loop, q: Loop, cfg: Config, step: Step, notes: seq<Event>, report: Option<Report>, valued: bool,
                   named: bool, tradeId: Option<nat>)
    requires Reached(s, q, cfg, step, notes, report, valued)
    requires tradeId == if named && step.inputs.recorded then Some(|s.store.trades|) else None
    ensures CameTo(s, Cycled(Finalise(q, cfg, step.inputs, step.Bar(), tradeId), true), cfg, step, notes, report,
                   valued, named, true)
  {
    MarkRaisesPeak(q.ledger, step.Bar().close);
  }

  /** Looking before the close makes no difference. */
  lemma WatchesAndCloses(q: Loop, cfg: Config, step: Step, tradeId: Option<nat>)
    ensures Finalise(MarkLoop(q, step.Bar().close), cfg, step.inputs, step.Bar(), tradeId)
         == Finalise(q, cfg, step.inputs, step.Bar(), tradeId)
  {
    MarkRaisesPeak(q.ledger, step.Bar().close);
    MarkRaisesPeak(MarkLoop(q, step.Bar().close).ledger, step.Bar().close);
  }

  lemma ForcedFromReady(s: Loop, q: Loop, cfg: Config, step: Step, notes: seq<Event>, asked: set<Key>, valued: bool)
    requires Ready(s, q, cfg, step, notes, asked, valued)
    ensures ActivityOrder(q, cfg, step.inputs, step.Bar()) == Forced(s, cfg, step)
  {
    assert q.ledger.Exposure(step.Bar().close) == s.ledger.Exposure(step.Bar().close);
  }

  /** The notes of one channel. */
  function NotesOn(s: Loop, cfg: Config, step: Step, channel: Channel, order: Option<Order>): seq<Event> {
    Noted(order, CycleKey(cfg, step, channel), Heard(s, cfg, step, channel, order), ModeOf(s, cfg, step))
  }

  predicate LooksFirst(forced: Option<Order>) { forced.Some? && forced.value.side.Buy? }

  /** The activity rule's request, if it makes one. */
  lemma ForcedStage(s: Loop, q: Loop, cfg: Config, step: Step, notes: seq<Event>, asked: set<Key>, valued: bool)
    requires Ready(s, q, cfg, step, notes, asked, valued) && CycleKey(cfg, step, Activity) !in asked
    ensures var t, forced := ActivityTrade(q, cfg, step.inputs, step.Bar()), Forced(s, cfg, step);
            var heard := Heard(s, cfg, step, Activity, forced);
            && t.raised == Raised(heard)
            && Reached(s, t.state, cfg, step, notes + NotesOn(s, cfg, step, Activity, forced), Filling(heard),
                       valued || LooksFirst(forced))
  {
    var forced := Forced(s, cfg, step);
    ForcedFromReady(s, q, cfg, step, notes, asked, valued);
    if forced.None? {
      assert notes + NotesOn(s, cfg, step, Activity, forced) == notes;
    } else {
      var from := if LooksFirst(forced) then MarkLoop(q, step.Bar().close) else q;
      LookFromReady(s, q, cfg, step, notes, asked, valued);
      RequestFromReady(s, from, Submit(from, cfg, step.inputs, Activity, forced.value, step.Bar()), cfg, step, notes,
                       asked, valued || LooksFirst(forced), Activity, forced.value);
    }
  }

  /** The watches and the close, unless the last request raised. */
  lemma LastStage(s: Loop, t: Traded, cfg: Config, step: Step, notes: seq<Event>, report: Option<Report>, valued: bool,
                  named: bool, tradeId: Option<nat>)
    requires Reached(s, t.state, cfg, step, notes, report, valued)
    requires tradeId == if named && step.inputs.recorded then Some(|s.store.trades|) else None
    ensures var watched := if step.inputs.watching then MarkLoop(t.state, step.Bar().close) else t.state;
            CameTo(s, if t.raised then Cycled(t.state, false)
                      else Cycled(Finalise(watched, cfg, step.inputs, step.Bar(), tradeId), true),
                   cfg, step, notes, report, valued, named, !t.raised)
  {
    WatchesAndCloses(t.state, cfg, step, tradeId);
    ClosesFrom(s, t.state, cfg, step, notes, report, valued, named, tradeId);
  }

  lemma ActivityStage(s: Loop, q: Loop, cfg: Config, step: Step, notes: seq<Event>, asked: set<Key>, valued: bool)
    requires Ready(s, q, cfg, step, notes, asked, valued) && CycleKey(cfg, step, Activity) !in asked
    ensures var forced := Forced(s, cfg, step);
            var heard := Heard(s, cfg, step, Activity, forced);
            CameTo(s, ActivityAndClose(q, cfg, step.inputs, step.Bar(), None), cfg, step,
                   notes + NotesOn(s, cfg, step, Activity, forced), Filling(heard), valued || LooksFirst(forced), false,
                   !Raised(heard))
  {
    var t, forced := ActivityTrade(q, cfg, step.inputs, step.Bar()), Forced(s, cfg, step);
    ForcedStage(s, q, cfg, step, notes, asked, valued);
    LastStage(s, t, cfg, step, notes + NotesOn(s, cfg, step, Activity, forced),
              Filling(Heard(s, cfg, step, Activity, forced)), valued || LooksFirst(forced), false, None);
  }

  /** After a fill the activity rule is silent. */
  lemma SilentStage(s: Loop, q: Loop, cfg: Config, step: Step, notes: seq<Event>, report: Report, valued: bool,
                    tradeId: Option<nat>)
    requires Reached(s, q, cfg, step, notes, Some(report), valued)
    requires tradeId == if step.inputs.recorded then Some(|s.store.trades|) else None
    ensures CameTo(s, ActivityAndClose(q, cfg, step.inputs, step.Bar(), tradeId), cfg, step, notes, Some(report),
                   valued, true, true)
  {
    assert ActivityTrade(q, cfg, step.inputs, step.Bar()) == Traded(q, None, false);
    LastStage(s, Traded(q, None, false), cfg, step, notes, Some(report), valued, true, tradeId);
  }

  lemma WantedIsGated(q: Loop, cfg: Config, step: Step)
    requires q.blockEntry == step.inputs.autopilot.BlockEntry?
    ensures GatedOrder(q, cfg, step.inputs, step.history) == Wanted(cfg, step)
  {
    assert StampSentiment(step.history, step.inputs.social) == Shown(step);
  }

  /** What the activity rule asks after the strategy's request was answered so. */
  function ForcedAfter(s: Loop, cfg: Config, step: Step, heard: Option<Reply>): Option<Order> {
    if !Raised(heard) && Filling(heard).None? then Forced(s, cfg, step) else None
  }

  /** What follows once the strategy is asked. */
  ghost predicate Decided(s: Loop, c: Cycled, cfg: Config, step: Step, notes: seq<Event>, valued: bool) {
    var wanted := Wanted(cfg, step);
    var heard := Heard(s, cfg, step, Base, wanted);
    var forced := ForcedAfter(s, cfg, step, heard);
    var last := Heard(s, cfg, step, Activity, forced);
    CameTo(s, c, cfg, step, notes + NotesOn(s, cfg, step, Base, wanted) + NotesOn(s, cfg, step, Activity, forced),
           if Filling(heard).Some? then Filling(heard) else Filling(last), valued || LooksFirst(forced),
           Filling(heard).Some?, !Raised(heard) && !Raised(last))
  }

  lemma MainStage(s: Loop, q: Loop, cfg: Config, step: Step, notes: seq<Event>, asked: set<Key>, valued: bool)
    requires Ready(s, q, cfg, step, notes, asked, valued)
    requires CycleKey(cfg, step, Base) !in asked && CycleKey(cfg, step, Activity) !in asked
    ensures Decided(s, MainPath(q, cfg, step.inputs, step.history), cfg, step, notes, valued)
  {
    var inp, bar, wanted := step.inputs, step.Bar(), Wanted(cfg, step);
    WantedIsGated(q, cfg, step);
    if wanted.None? {
      assert notes + NotesOn(s, cfg, step, Base, wanted) == notes;
      ActivityStage(s, q, cfg, step, notes, asked, valued);
    } else {
      var t := Submit(q, cfg, inp, Base, wanted.value, bar);
      RequestFromReady(s, q, t, cfg, step, notes, asked, valued, Base, wanted.value);
      AfterRequest(s, t, cfg, step, notes, asked, valued);
    }
  }

  /** The strategy's request is answered. */
  lemma AfterRequest(s: Loop, t: Traded, cfg: Config, step: Step, notes: seq<Event>, asked: set<Key>, valued: bool)
    requires Wanted(cfg, step).Some? && CycleKey(cfg, step, Activity) !in asked
    requires var wanted := Wanted(cfg, step);
             var heard, more := Heard(s, cfg, step, Base, wanted), notes + NotesOn(s, cfg, step, Base, wanted);
             && t.raised == Raised(heard)
             && t.tradeId == (if Filling(heard).Some? && step.inputs.recorded then Some(|s.store.trades|) else None)
             && Reached(s, t.state, cfg, step, more, Filling(heard), valued)
             && (Filling(heard).None? ==>
                   Ready(s, t.state, cfg, step, more, asked + {CycleKey(cfg, step, Base)}, valued))
    ensures Decided(s, if t.raised then Cycled(t.state, false)
                       else ActivityAndClose(t.state, cfg, step.inputs, step.Bar(), t.tradeId),
                    cfg, step, notes, valued)
  {
    var wanted := Wanted(cfg, step);
    var heard, more := Heard(s, cfg, step, Base, wanted), notes + NotesOn(s, cfg, step, Base, wanted);
    if t.raised || Filling(heard).Some? {
      assert more + NotesOn(s, cfg, step, Activity, None) == more;
      if !t.raised {
        SilentStage(s, t.state, cfg, step, more, Filling(heard).value, valued, t.tradeId);
      }
    } else {
      ActivityStage(s, t.state, cfg, step, more, asked + {CycleKey(cfg, step, Base)}, valued);
    }
  }

  /** What follows once the social overlay may speak. */
  ghost predicate Listened(s: Loop, c: Cycled, cfg: Config, step: Step, valued: bool) {
    var order := step.inputs.kolOrder;
    var heard := Heard(s, cfg, step, Kol, order);
    var looked := valued || order.Some? || step.inputs.kolRefused;
    if order.None? || Raised(heard) then Decided(s, c, cfg, step, NotesOn(s, cfg, step, Kol, order), looked)
    else CameTo(s, c, cfg, step, NotesOn(s, cfg, step, Kol, order), Filling(heard), looked, Filling(heard).Some?, true)
  }

  lemma KolStage(s: Loop, q: Loop, cfg: Config, step: Step, valued: bool)
    requires Ready(s, q, cfg, step, [], {}, valued)
    ensures Listened(s, KolPath(q, cfg, step.inputs, step.history), cfg, step, valued)
  {
    var order, marked := step.inputs.kolOrder, MarkLoop(q, step.Bar().close);
    LookFromReady(s, q, cfg, step, [], {}, valued);
    if order.None? {
      MainStage(s, if step.inputs.kolRefused then marked else q, cfg, step, [], {}, valued || step.inputs.kolRefused);
    } else {
      var t, key := Submit(marked, cfg, step.inputs, Kol, order.value, step.Bar()), CycleKey(cfg, step, Kol);
      var notes, heard := NotesOn(s, cfg, step, Kol, order), Heard(s, cfg, step, Kol, order);
      RequestFromReady(s, marked, t, cfg, step, [], {}, true, Kol, order.value);
      assert [] + notes == notes;
      if t.raised {
        MainStage(s, t.state, cfg, step, notes, {} + {key}, true);
      } else {
        ClosesFrom(s, t.state, cfg, step, notes, Filling(heard), true, Filling(heard).Some?, t.tradeId);
      }
    }
  }

  function FlattenOrder(s: Loop, cfg: Config, step: Step): Order {
    Order(Sell, s.ledger.Exposure(step.Bar().close), cfg.symbol, step.Bar().timestamp)
  }

  /** What follows the autopilot's verdict. */
  ghost predicate Verdict(s: Loop, c: Cycled, cfg: Config, step: Step, valued: bool) {
    if step.inputs.autopilot.Flatten? && Exposed(s, step) then
      var order := Some(FlattenOrder(s, cfg, step));
      var heard := Heard(s, cfg, step, Autopilot, order);
      CameTo(s, c, cfg, step, NotesOn(s, cfg, step, Autopilot, order), Filling(heard), valued, Filling(heard).Some?,
             !Raised(heard))
    else if step.inputs.autopilot.HaltDay? then CameTo(s, c, cfg, step, [], None, valued, false, true)
    else Listened(s, c, cfg, step, valued)
  }

  lemma FlattenStage(s: Loop, q: Loop, cfg: Config, step: Step, valued: bool)
    requires Ready(s, q, cfg, step, [], {}, valued)
    requires step.inputs.autopilot.Flatten? && Exposed(s, step)
    ensures Verdict(s, Judged(q, cfg, step.inputs, step.history), cfg, step, valued)
  {
    assert q.ledger.Exposure(step.Bar().close) == s.ledger.Exposure(step.Bar().close);
    var order := FlattenOrder(s, cfg, step);
    var t := Submit(q, cfg, step.inputs, Autopilot, order, step.Bar());
    var notes, heard := NotesOn(s, cfg, step, Autopilot, Some(order)), Heard(s, cfg, step, Autopilot, Some(order));
    RequestFromReady(s, q, t, cfg, step, [], {}, valued, Autopilot, order);
    assert [] + notes == notes;
    if !t.raised {
      ClosesFrom(s, t.state, cfg, step, notes, Filling(heard), valued, Filling(heard).Some?, t.tradeId);
    }
  }

  lemma JudgedStage(s: Loop, q: Loop, cfg: Config, step: Step, valued: bool)
    requires Ready(s, q, cfg, step, [], {}, valued)
    ensures Verdict(s, Judged(q, cfg, step.inputs, step.history), cfg, step, valued)
  {
    assert q.ledger.Exposure(step.Bar().close) == s.ledger.Exposure(step.Bar().close);
    if step.inputs.autopilot.Flatten? && Exposed(s, step) {
      FlattenStage(s, q, cfg, step, valued);
    } else if step.inputs.autopilot.HaltDay? {
      ClosesFrom(s, q, cfg, step, [], None, valued, false, None);
    } else {
      KolStage(s, q, cfg, step, valued);
    }
  }

  lemma AutopilotStage(s: Loop, p: Loop, cfg: Config, step: Step, valued: bool)
    requires Ready(s, p.(blockEntry := step.inputs.autopilot.BlockEntry?), cfg, step, [], {}, valued)
    ensures Verdict(s, AutopilotPath(p, cfg, step.inputs, step.history), cfg, step,
                    valued || !step.inputs.autopilot.Disabled?)
  {
    var gated := p.(blockEntry := step.inputs.autopilot.BlockEntry?);
    if step.inputs.autopilot.Disabled? {
      KolStage(s, gated, cfg, step, valued);
    } else {
      LookFromReady(s, gated, cfg, step, [], {}, valued);
      JudgedStage(s, MarkLoop(gated, step.Bar().close), cfg, step, true);
    }
  }

  // ---- the whole cycle ----

  /** What comes back on a channel, if anything is asked there and the table leaves it to the venue. */
  function AnswerOn(s: Loop, cfg: Config, step: Step, channel: Channel): Option<Reply> {
    Heard(s, cfg, step, channel, Asks(s, cfg, step, channel))
  }

  /** The filled report that comes back on a channel, if any. */
  function FillOn(s: Loop, cfg: Config, step: Step, channel: Channel): Option<Report> {
    Filling(AnswerOn(s, cfg, step, channel))
  }

  /** Two channels never both fill: an answered overlay ends the cycle, and after a fill the activity rule is silent. */
  lemma FillsExclude(s: Loop, cfg: Config, step: Step, a: Channel, b: Channel)
    requires FillOn(s, cfg, step, a).Some? && FillOn(s, cfg, step, b).Some?
    ensures a == b
  {
  }

  function First(a: Option<Report>, b: Option<Report>): Option<Report> { if a.Some? then a else b }

  /** The cycle's trade on a channel that its decision row names. */
  function NamedTrade(s: Loop, cfg: Config, step: Step): Option<Report> {
    First(FillOn(s, cfg, step, Autopilot), First(FillOn(s, cfg, step, Kol), FillOn(s, cfg, step, Base)))
  }

  /** The one trade of the cycle. */
  function TradeOf(s: Loop, cfg: Config, step: Step): (report: Option<Report>)
    ensures report.Some? ==> report.value.IsFill()
  {
    First(NamedTrade(s, cfg, step), FillOn(s, cfg, step, Activity))
  }

  /** Looked at before the overlays speak. */
  predicate LooksEarly(s: Loop, step: Step) {
    LooksAtOnce(s, step) || (Runs(step) && !step.inputs.autopilot.Disabled?)
  }

  /** The cycle values the account at its close before it trades. */
  predicate LooksAtClose(s: Loop, cfg: Config, step: Step) {
    || LooksEarly(s, step)
    || (Listens(s, step) && (step.inputs.kolOrder.Some? || step.inputs.kolRefused))
    || LooksFirst(Asks(s, cfg, step, Activity))
  }

  function NotesOf(s: Loop, cfg: Config, step: Step): seq<Event> {
    NotesOn(s, cfg, step, Autopilot, Asks(s, cfg, step, Autopilot))
    + NotesOn(s, cfg, step, Kol, Asks(s, cfg, step, Kol))
    + NotesOn(s, cfg, step, Base, Asks(s, cfg, step, Base))
    + NotesOn(s, cfg, step, Activity, Asks(s, cfg, step, Activity))
  }

  /** The venue raised, anywhere but on the social overlay's channel. */
  predicate Raises(s: Loop, cfg: Config, step: Step) {
    || Raised(AnswerOn(s, cfg, step, Autopilot)) || Raised(AnswerOn(s, cfg, step, Base))
    || Raised(AnswerOn(s, cfg, step, Activity))
  }

  /**
   A cycle puts exactly the orders `Asks` names to the executor, notes exactly what comes back, books the one trade
   among the answers or none, and closes unless the venue raised.
   */
  ghost predicate DoesAsItAsks(s: Loop, c: Cycled, cfg: Config, step: Step) {
    CameTo(s, c, cfg, step, NotesOf(s, cfg, step), TradeOf(s, cfg, step), LooksAtClose(s, cfg, step),
           NamedTrade(s, cfg, step).Some?, !Raises(s, cfg, step))
  }

  lemma FlattenedSums(s: Loop, c: Cycled, cfg: Config, step: Step)
    requires Flattens(s, step) && Verdict(s, c, cfg, step, LooksEarly(s, step))
    ensures DoesAsItAsks(s, c, cfg, step)
  {
    assert Asks(s, cfg, step, Kol).None? && Asks(s, cfg, step, Base).None? && Asks(s, cfg, step, Activity).None?;
    var notes := NotesOn(s, cfg, step, Autopilot, Asks(s, cfg, step, Autopilot));
    assert NotesOf(s, cfg, step) == notes;
  }

  /** Stopped, or stopped for the day. */
  lemma SilentSums(s: Loop, c: Cycled, cfg: Config, step: Step)
    requires !Flattens(s, step) && !Listens(s, step)
    requires CameTo(s, c, cfg, step, [], None, LooksEarly(s, step), false, true)
    ensures DoesAsItAsks(s, c, cfg, step)
  {
    assert NotesOf(s, cfg, step) == [];
  }

  lemma OverlaySums(s: Loop, c: Cycled, cfg: Config, step: Step)
    requires Listens(s, step) && !Decides(s, cfg, step) && Listened(s, c, cfg, step, LooksEarly(s, step))
    ensures DoesAsItAsks(s, c, cfg, step)
  {
    assert Asks(s, cfg, step, Autopilot).None? && Asks(s, cfg, step, Base).None? && Asks(s, cfg, step, Activity).None?;
    var notes := NotesOn(s, cfg, step, Kol, Asks(s, cfg, step, Kol));
    assert NotesOf(s, cfg, step) == notes;
  }

  lemma DecidedSums(s: Loop, c: Cycled, cfg: Config, step: Step)
    requires Decides(s, cfg, step)
    requires Decided(s, c, cfg, step, NotesOn(s, cfg, step, Kol, step.inputs.kolOrder),
                     LooksEarly(s, step) || step.inputs.kolOrder.Some? || step.inputs.kolRefused)
    ensures DoesAsItAsks(s, c, cfg, step)
  {
    assert Asks(s, cfg, step, Autopilot).None? && Asks(s, cfg, step, Kol) == step.inputs.kolOrder;
    assert Filling(Heard(s, cfg, step, Kol, step.inputs.kolOrder)).None?;
    assert NotesOn(s, cfg, step, Autopilot, None) + NotesOn(s, cfg, step, Kol, step.inputs.kolOrder)
        == NotesOn(s, cfg, step, Kol, step.inputs.kolOrder);
  }

  lemma VerdictSums(s: Loop, c: Cycled, cfg: Config, step: Step)
    requires Runs(step) && Verdict(s, c, cfg, step, LooksEarly(s, step))
    ensures DoesAsItAsks(s, c, cfg, step)
  {
    if Flattens(s, step) {
      FlattenedSums(s, c, cfg, step);
    } else if Decides(s, cfg, step) {
      DecidedSums(s, c, cfg, step);
    } else if Listens(s, step) {
      OverlaySums(s, c, cfg, step);
    } else {
      SilentSums(s, c, cfg, step);
    }
  }

  lemma CycleDoesAsItAsks(s: Loop, cfg: Config, step: Step)
    ensures DoesAsItAsks(s, Cycle(s, cfg, step.inputs, step.history), cfg, step)
  {
    var p, c := Prepare(s, cfg, step.inputs, step.Bar()), Cycle(s, cfg, step.inputs, step.history);
    var early := LooksAtOnce(s, step);
    PreparedIsReady(s, p, cfg, step);
    if Runs(step) {
      AutopilotStage(s, p, cfg, step, early);
      VerdictSums(s, c, cfg, step);
    } else {
      StoppedStage(s, p, cfg, step, early);
      SilentSums(s, c, cfg, step);
    }
  }

  /** A stopped cycle only closes. */
  lemma StoppedStage(s: Loop, p: Loop, cfg: Config, step: Step, valued: bool)
    requires Ready(s, p.(blockEntry := step.inputs.autopilot.BlockEntry?), cfg, step, [], {}, valued)
    ensures CameTo(s, Cycled(Finalise(p, cfg, step.inputs, step.Bar(), None), true), cfg, step, [], None, valued, false,
                   true)
  {
    ClosesFrom(s, p, cfg, step, [], None, valued, false, None);
  }

  /** At most one trade: whichever channel fills, that is the cycle's trade. */
  lemma OneTradePerCycle(s: Loop, cfg: Config, step: Step, channel: Channel)
    requires FillOn(s, cfg, step, channel).Some?
    ensures TradeOf(s, cfg, step) == FillOn(s, cfg, step, channel)
  {
    forall other | FillOn(s, cfg, step, other).Some?
      ensures other == channel
    {
      FillsExclude(s, cfg, step, other, channel);
    }
  }
}
