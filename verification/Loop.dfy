/**
 The live decision cycle as a state machine. `Cycle` is one call of the loop on the history the
 feed hands it; `Inputs` holds everything the cycle reads from outside: the cockpit's mode toggle,
 floor and kill switch, the overlays' decisions, the venue's replies, and whether writes reach the
 event log. Class `DecisionLoop` performs the same cycle step by step.
 */
module Loops {
  import opened Market
  import opened Ledgers
  import opened Executors

  datatype Mode = PaperMode | TestnetMode | MainnetMode

  const EXPOSURE_EPSILON: real := 0.000001
  const ALERT_THRESHOLD: nat := 3
  const WARN_MS: int := 7_200_000
  const HALT_MS: int := 14_400_000
  const HOUR_MS: int := 3_600_000

  // ---- what the cycle writes ----

  datatype TradeRow = TradeRow(side: Side, sizeUsd: real, symbol: string, price: real, costs: Costs,
                               mode: Mode, txHash: Option<string>, timestamp: int)

  datatype LedgerRow = LedgerRow(tradeId: nat, realized: real, peak: real, timestamp: int)

  datatype DecisionRow = DecisionRow(cycle: Key, timestamp: int, tradeId: Option<nat>)

  /** The append-only event log; a trade id is the row's position. */
  datatype Store = Store(trades: seq<TradeRow>, ledger: seq<LedgerRow>, decisions: seq<DecisionRow>)

  datatype Event =
    | ModeDeferred(target: Mode)
    | ModeSwitched(target: Mode)
    | RebuildFailed(target: Mode)
    | FailureWarned(at: int)
    | AutoHalted(at: int, since: int)
    | FailureAlert
    | Asked(key: Key)
    | Filled(key: Key, fill: Fill, mode: Mode)
    | Simulated(key: Key)
    | Blocked(key: Key)
    | Failed(key: Key, at: int)

  // ---- what the cycle reads ----

  datatype Floor = NoFloor | AboveFloor | FloorHit

  datatype Autopilot = Disabled | EvaluationFails | NoAction | BlockEntry | Flatten | HaltDay

  /** `kolRefused`: the social overlay valued the account but then placed no order. */
  datatype Inputs = Inputs(
    desired: Option<Mode>, rebuilds: bool, social: Option<real>, floor: Floor, halted: bool,
    autopilot: Autopilot, kolOrder: Option<Order>, kolRefused: bool, gate: Order -> Option<Order>,
    allowlisted: bool, guardrails: bool, watching: bool,
    venue: (Key, Order) -> Reply, recorded: bool)

  ghost predicate ProperVenue(inp: Inputs) { forall key, order :: inp.venue(key, order).Proper() }

  datatype Config = Config(symbol: string, strategy: Strategy, switching: bool,
                           activityFloor: bool, activityHour: int, activityUsd: real)

  // ---- the loop's own state ----

  datatype Watch = Watch(failures: nat, since: Option<int>, warned: bool)

  datatype Loop = Loop(
    ledger: Ledger, seen: Seen, mode: Mode, pending: Option<Mode>, watch: Watch, blockEntry: bool,
    activityDay: int, tradesToday: nat, entry: Option<Fill>, fills: seq<Fill>, trades: seq<Trade>,
    curve: seq<real>, stamps: seq<int>, store: Store, log: seq<Event>)

  function Boot(initial: real, mode: Mode): Loop {
    Loop(Open(initial), map[], mode, None, Watch(0, None, false), false, -1, 0, None, [], [], [], [],
         Store([], [], []), [])
  }

  function MarkLoop(s: Loop, price: real): Loop { s.(ledger := Mark(s.ledger, price)) }

  function Note(s: Loop, e: Event): Loop { s.(log := s.log + [e]) }

  function RollOver(s: Loop, bar: Bar): Loop {
    var rolled := s.(ledger := RollDay(s.ledger, bar.timestamp, bar.open));
    var day := bar.timestamp / DAY_MS;
    if day == s.activityDay then rolled
    else
      var summed := if s.activityDay != -1 then MarkLoop(rolled, bar.close) else rolled;
      MarkLoop(summed.(activityDay := day, tradesToday := 0), bar.open)
  }

  /** Warn after two hours of unbroken execution failure, halt after four. */
  function CheckSustainedFailure(s: Loop, now: int): Loop {
    if s.watch.since.None? || now - s.watch.since.value < WARN_MS then s
    else
      var warned := if s.watch.warned then s
                    else Note(s, FailureWarned(now)).(watch := s.watch.(warned := true));
      if now - s.watch.since.value >= HALT_MS then
        Note(warned, AutoHalted(now, s.watch.since.value)).(watch := s.watch.(since := None, warned := false))
      else warned
  }

  /** Follow the cockpit's mode toggle, but only while flat. */
  function SyncMode(s: Loop, cfg: Config, inp: Inputs, close: real): Loop {
    if !cfg.switching then s
    else if inp.desired.None? || inp.desired.value == s.mode then s.(pending := None)
    else if s.ledger.Exposure(close) > EXPOSURE_EPSILON then
      if s.pending != inp.desired then Note(s, ModeDeferred(inp.desired.value)).(pending := inp.desired) else s
    else if !inp.rebuilds then Note(s, RebuildFailed(inp.desired.value))
    else
      Note(s, ModeSwitched(inp.desired.value)).(seen := map[], mode := inp.desired.value, pending := None)
  }

  datatype Handled = Handled(state: Loop, tradeId: Option<nat>)

  function RowOf(report: Report, fill: Fill, mode: Mode, timestamp: int): TradeRow {
    TradeRow(report.order.side, report.order.sizeUsd, report.order.symbol, fill.price, fill.costs,
             mode, report.txHash, timestamp)
  }

  /** A buy opens the round trip if none is open; a sell closes it at the ledger's realised profit. */
  function PairFill(s: Loop, fill: Fill, realized: real, bar: Bar, inp: Inputs): Loop {
    if fill.order.side.Buy? then
      if s.entry.Some? then s
      else if inp.autopilot.Disabled? then s.(entry := Some(fill))
      else MarkLoop(s.(entry := Some(fill)), bar.close)
    else if s.entry.Some? then
      s.(trades := s.trades + [Trade(s.entry.value, fill, realized)], entry := None)
    else s
  }

  /** The trade row and, if it was written, the ledger row that goes with it. */
  function RecordTrade(s: Loop, report: Report, fill: Fill, realized: real, bar: Bar, inp: Inputs): Handled {
    if inp.recorded then
      var id := |s.store.trades|;
      Handled(s.(store := Store(s.store.trades + [RowOf(report, fill, s.mode, bar.timestamp)],
                                s.store.ledger + [LedgerRow(id, realized, s.ledger.peak, bar.timestamp)],
                                s.store.decisions)),
              Some(id))
    else Handled(s, None)
  }

  /** A fill moves the ledger, ends any failure streak and counts as one of the day's trades. */
  function Booked(s: Loop, fill: Fill): Loop {
    s.(ledger := Apply(s.ledger, fill), watch := Watch(0, None, false),
       tradesToday := s.tradesToday + 1, fills := s.fills + [fill])
  }

  function HandleFill(s: Loop, key: Key, report: Report, fill: Fill, bar: Bar, inp: Inputs): Handled {
    var realized := Realized(s.ledger, fill);
    RecordTrade(Note(PairFill(Booked(s, fill), fill, realized, bar, inp), Filled(key, fill, s.mode)),
                report, fill, realized, bar, inp)
  }

  function CountFailure(s: Loop, key: Key, at: int): Loop {
    var failures := s.watch.failures + 1;
    var since := if s.watch.since.None? then Some(at) else s.watch.since;
    var noted := Note(s, Failed(key, at));
    if failures >= ALERT_THRESHOLD
    then Note(noted, FailureAlert).(watch := s.watch.(failures := 0, since := since))
    else noted.(watch := s.watch.(failures := failures, since := since))
  }

  /** Fold an execution report into the ledger, the scorecard series, the watchdog and the log. */
  function HandleExecution(s: Loop, key: Key, report: Report, bar: Bar, inp: Inputs): Handled {
    if report.IsFill() then HandleFill(s, key, report, report.fill.value, bar, inp)
    else
      match report.status
      case DUPLICATE => Handled(Note(s, Blocked(key)), None)
      case REJECTED => Handled(Note(s, Blocked(key)), None)
      case FAILED => Handled(CountFailure(s, key, report.order.timestamp), None)
      case SIMULATED => Handled(Note(s, Simulated(key)), None)
      case FILLED => Handled(s, None)
  }

  datatype Traded = Traded(state: Loop, tradeId: Option<nat>, raised: bool)

  /** Ask the executor under a key and handle its answer; an exception leaves the answer unhandled. */
  function Submit(s: Loop, cfg: Config, inp: Inputs, channel: Channel, order: Order, bar: Bar): Traded {
    var key := Key(cfg.symbol, bar.timestamp, channel);
    var o := ExecuteOnce(s.seen, key, order, inp.venue(key, order));
    var asked := Note(s, Asked(key)).(seen := o.seen);
    if o.reply.Raises? then Traded(asked, None, true)
    else
      var h := HandleExecution(asked, key, o.reply.report, bar, inp);
      Traded(h.state, h.tradeId, false)
  }

  /** One decision row per cycle id; a re-run only links a trade that was missing. */
  function RecordDecision(rows: seq<DecisionRow>, row: DecisionRow): seq<DecisionRow> {
    if rows == [] then [row]
    else if rows[0].cycle == row.cycle then
      [if row.tradeId.Some? && rows[0].tradeId.None? then rows[0].(tradeId := row.tradeId) else rows[0]] + rows[1..]
    else [rows[0]] + RecordDecision(rows[1..], row)
  }

  function Finalise(s: Loop, cfg: Config, inp: Inputs, bar: Bar, tradeId: Option<nat>): Loop {
    var marked := MarkLoop(s, bar.close);
    var row := DecisionRow(Key(cfg.symbol, bar.timestamp, Base), bar.timestamp, tradeId);
    marked.(store := if inp.recorded
                     then s.store.(decisions := RecordDecision(s.store.decisions, row)) else s.store,
            curve := s.curve + [marked.ledger.Equity(bar.close)],
            stamps := s.stamps + [bar.timestamp])
  }

  /** The minimal trade an activity rule forces late in a day without trades. */
  function ActivityOrder(s: Loop, cfg: Config, inp: Inputs, bar: Bar): Option<Order> {
    if !cfg.activityFloor || s.tradesToday > 0 || (bar.timestamp / HOUR_MS) % 24 < cfg.activityHour
       || !inp.allowlisted then None
    else
      var held := s.ledger.Exposure(bar.close);
      var side := if held > 0.0 then Sell else Buy;
      var size := if held > cfg.activityUsd || held <= 0.0 then cfg.activityUsd else held;
      if size <= 0.0 || (side.Buy? && !inp.guardrails) then None
      else Some(Order(side, size, cfg.symbol, bar.timestamp))
  }

  function StampSentiment(history: seq<Bar>, social: Option<real>): seq<Bar>
    requires history != []
  {
    if social.None? || social.value == 0.0 then history
    else history[..|history| - 1] + [history[|history| - 1].(socialScore := social.value)]
  }

  datatype Cycled = Cycled(state: Loop, completed: bool)

  function ActivityTrade(s: Loop, cfg: Config, inp: Inputs, bar: Bar): Traded {
    var order := ActivityOrder(s, cfg, inp, bar);
    if order.None? then Traded(s, None, false)
    else Submit(if order.value.side.Buy? then MarkLoop(s, bar.close) else s, cfg, inp, Activity, order.value, bar)
  }

  function ActivityAndClose(s: Loop, cfg: Config, inp: Inputs, bar: Bar, tradeId: Option<nat>): Cycled {
    var t := ActivityTrade(s, cfg, inp, bar);
    if t.raised then Cycled(t.state, false)
    else
      var watched := if inp.watching then MarkLoop(t.state, bar.close) else t.state;
      Cycled(Finalise(watched, cfg, inp, bar, tradeId), true)
  }

  /** The strategy's order after the recycle gate and the size gates. */
  function GatedOrder(s: Loop, cfg: Config, inp: Inputs, history: seq<Bar>): Option<Order>
    requires history != []
  {
    var order := cfg.strategy(StampSentiment(history, inp.social));
    if order.None? || (s.blockEntry && order.value.side.Buy?) then None else inp.gate(order.value)
  }

  function MainPath(s: Loop, cfg: Config, inp: Inputs, history: seq<Bar>): Cycled
    requires history != []
  {
    var bar := history[|history| - 1];
    var order := GatedOrder(s, cfg, inp, history);
    if order.None? then ActivityAndClose(s, cfg, inp, bar, None)
    else
      var t := Submit(s, cfg, inp, Base, order.value, bar);
      if t.raised then Cycled(t.state, false) else ActivityAndClose(t.state, cfg, inp, bar, t.tradeId)
  }

  function KolPath(s: Loop, cfg: Config, inp: Inputs, history: seq<Bar>): Cycled
    requires history != []
  {
    var bar := history[|history| - 1];
    if inp.kolOrder.None? then MainPath(if inp.kolRefused then MarkLoop(s, bar.close) else s, cfg, inp, history)
    else
      var t := Submit(MarkLoop(s, bar.close), cfg, inp, Kol, inp.kolOrder.value, bar);
      if t.raised then MainPath(t.state, cfg, inp, history)
      else Cycled(Finalise(t.state, cfg, inp, bar, t.tradeId), true)
  }

  /** The autopilot's verdict, with the entry gate already set: flatten, stop for the day, or go on. */
  function Judged(s: Loop, cfg: Config, inp: Inputs, history: seq<Bar>): Cycled
    requires history != []
  {
    var bar := history[|history| - 1];
    var exposure := s.ledger.Exposure(bar.close);
    if inp.autopilot.Flatten? && exposure > EXPOSURE_EPSILON then
      var t := Submit(s, cfg, inp, Autopilot, Order(Sell, exposure, cfg.symbol, bar.timestamp), bar);
      if t.raised then Cycled(t.state, false) else Cycled(Finalise(t.state, cfg, inp, bar, t.tradeId), true)
    else if inp.autopilot.HaltDay? then Cycled(Finalise(s, cfg, inp, bar, None), true)
    else KolPath(s, cfg, inp, history)
  }

  function AutopilotPath(s: Loop, cfg: Config, inp: Inputs, history: seq<Bar>): Cycled
    requires history != []
  {
    var bar := history[|history| - 1];
    if inp.autopilot.Disabled? then KolPath(s.(blockEntry := false), cfg, inp, history)
    else Judged(MarkLoop(s, bar.close).(blockEntry := inp.autopilot.BlockEntry?), cfg, inp, history)
  }

  /** Everything before the cycle may ask the executor. */
  function Prepare(s: Loop, cfg: Config, inp: Inputs, bar: Bar): Loop {
    var synced := SyncMode(CheckSustainedFailure(RollOver(s, bar), bar.timestamp), cfg, inp, bar.close);
    if inp.floor.NoFloor? then synced else MarkLoop(synced, bar.close)
  }

  function Cycle(s: Loop, cfg: Config, inp: Inputs, history: seq<Bar>): Cycled
    requires history != []
  {
    var bar := history[|history| - 1];
    var prepared := Prepare(s, cfg, inp, bar);
    if inp.floor.FloorHit? || inp.halted then Cycled(Finalise(prepared, cfg, inp, bar, None), true)
    else AutopilotPath(prepared, cfg, inp, history)
  }

  // ---- runs ----

  type History = h: seq<Bar> | h != [] witness [FlatBar(0, 1.0)]

  datatype Step = Step(history: History, inputs: Inputs) {
    function Bar(): Bar { history[|history| - 1] }
  }

  function RunSteps(s: Loop, cfg: Config, steps: seq<Step>): Loop {
    if steps == [] then s
    else
      var last := steps[|steps| - 1];
      Cycle(RunSteps(s, cfg, steps[..|steps| - 1]), cfg, last.inputs, last.history).state
  }

  /** No exception escapes this cycle. */
  predicate Completes(s: Loop, cfg: Config, step: Step) { Cycle(s, cfg, step.inputs, step.history).completed }

  ghost predicate AllComplete(s: Loop, cfg: Config, steps: seq<Step>) {
    if steps == [] then true
    else
      var init := steps[..|steps| - 1];
      AllComplete(s, cfg, init) && Completes(RunSteps(s, cfg, init), cfg, steps[|steps| - 1])
  }

  /** An exception escapes the last cycle, and no earlier one. */
  ghost predicate LastRaised(s: Loop, cfg: Config, steps: seq<Step>) {
    && steps != []
    && var init := steps[..|steps| - 1];
       AllComplete(s, cfg, init) && !Completes(RunSteps(s, cfg, init), cfg, steps[|steps| - 1])
  }

  /** The cycles a replay feed drives from cursor position `from`. */
  function ReplaySteps(bars: seq<Bar>, from: nat, count: nat, env: nat -> Inputs): seq<Step>
    requires count == 0 || from + count <= |bars|
  {
    seq(count, i requires 0 <= i < count => Step(bars[..from + i + 1], env(i)))
  }

  /** The cycles a replay feed has driven since cursor position `from`. */
  ghost predicate FedBy(bars: seq<Bar>, from: nat, steps: seq<Step>, env: nat -> Inputs) {
    && (steps == [] || from + |steps| <= |bars|)
    && forall i: nat | i < |steps| :: steps[i] == Step(bars[..from + i + 1], env(i))
  }

  /** The run stands where `at` says; unless its last cycle raised, every cycle completed. */
  ghost predicate RanTo(s: Loop, cfg: Config, steps: seq<Step>, at: Cycled) {
    && at.state == RunSteps(s, cfg, steps)
    && if at.completed then AllComplete(s, cfg, steps) else LastRaised(s, cfg, steps)
  }

  /** One more cycle of a run that has completed so far. */
  lemma RunOneMore(s: Loop, cfg: Config, done: seq<Step>, before: Loop, step: Step, after: Cycled)
    requires RanTo(s, cfg, done, Cycled(before, true))
    requires after == Cycle(before, cfg, step.inputs, step.history)
    ensures RanTo(s, cfg, done + [step], after)
  {
    assert (done + [step])[..|done|] == done;
  }

  lemma FedOneMore(bars: seq<Bar>, from: nat, done: seq<Step>, env: nat -> Inputs)
    requires FedBy(bars, from, done, env) && from + |done| < |bars|
    ensures FedBy(bars, from, done + [Step(bars[..from + |done| + 1], env(|done|))], env)
  {
  }

  lemma FedByReplay(bars: seq<Bar>, from: nat, steps: seq<Step>, env: nat -> Inputs)
    requires FedBy(bars, from, steps, env)
    ensures steps == ReplaySteps(bars, from, |steps|, env)
  {
  }
}
