/**
 Processes one after another: each starts from the log the last one left, in the mode it was launched with, runs for
 a while and crashes. What holds after any number of crashes.
 */
module Lives {
  import opened Market
  import opened Ledgers
  import opened Executors
  import opened Loops
  import opened LoopMoves
  import opened Ordering
  import opened Recovery

  /** A new process, recovered from a log. The mode is the one it is launched in, whatever the last one had become. */
  function Started(store: Store, initial: real, mode: Mode): Loop {
    Boot(initial, mode).(ledger := RecoveredLedger(store, initial), seen := RecoveredSeen(store, map[]), store := store)
  }

  /** A process: its launch mode and the cycles it ran. */
  datatype Process = Process(mode: Mode, steps: seq<Step>)

  /** The state in which the last process ends; before any, an empty log. */
  function Life(initial: real, cfg: Config, processes: seq<Process>): Loop {
    if processes == [] then Boot(initial, PaperMode)
    else
      var last := processes[|processes| - 1];
      RunSteps(Started(Life(initial, cfg, processes[..|processes| - 1]).store, initial, last.mode), cfg, last.steps)
  }

  function AllSteps(processes: seq<Process>): seq<Step> {
    if processes == [] then []
    else AllSteps(processes[..|processes| - 1]) + processes[|processes| - 1].steps
  }

  /** Every cycle that fills writes to the log, and every restart finds at most 500 trades. */
  ghost predicate LifeRecorded(initial: real, cfg: Config, processes: seq<Process>) {
    if processes == [] then true
    else
      var before, last := Life(initial, cfg, processes[..|processes| - 1]), processes[|processes| - 1];
      && LifeRecorded(initial, cfg, processes[..|processes| - 1])
      && |before.store.trades| <= RECENT
      && FillsRecorded(Started(before.store, initial, last.mode), cfg, last.steps)
  }

  ghost predicate ReliableLife(initial: real, cfg: Config, processes: seq<Process>) {
    LifeRecorded(initial, cfg, processes) && InOrder(AllSteps(processes))
  }

  lemma EmptyLogRestoresNothing(initial: real, mode: Mode)
    ensures Started(Store([], [], []), initial, mode) == Boot(initial, mode)
  {
  }

  /** One process from an empty log is a run from boot. */
  lemma OneProcess(initial: real, cfg: Config, mode: Mode, steps: seq<Step>)
    ensures Life(initial, cfg, [Process(mode, steps)]) == RunSteps(Boot(initial, mode), cfg, steps)
  {
    var one := [Process(mode, steps)];
    assert one[..0] == [];
    EmptyLogRestoresNothing(initial, mode);
  }

  lemma OneReliable(initial: real, cfg: Config, mode: Mode, steps: seq<Step>)
    requires ReliableRun(Boot(initial, mode), cfg, steps)
    ensures ReliableLife(initial, cfg, [Process(mode, steps)]) && AllSteps([Process(mode, steps)]) == steps
  {
    var one := [Process(mode, steps)];
    assert one[..0] == [];
    assert [] + steps == steps;
    EmptyLogRestoresNothing(initial, mode);
    assert LifeRecorded(initial, cfg, []);
  }

  lemma {:induction false} RunConcat(s: Loop, cfg: Config, before: seq<Step>, after: seq<Step>)
    ensures RunSteps(s, cfg, before + after) == RunSteps(RunSteps(s, cfg, before), cfg, after)
    decreases |after|
  {
    if after == [] {
      assert before + after == before;
    } else {
      var init := after[..|after| - 1];
      assert (before + after)[..|before + after| - 1] == before + init;
      RunConcat(s, cfg, before, init);
    }
  }

  // ---- the keys of the past ----

  /** Decision rows are dated by their cycle, in order, up to `now`. */
  ghost predicate DatedRows(rows: seq<DecisionRow>, now: int) {
    && SortedBy(rows, DecisionTime)
    && forall i | 0 <= i < |rows| :: rows[i].timestamp == rows[i].cycle.timestamp <= now
  }

  /** Keys in the table and in the decision log belong to bars up to `now`. */
  ghost predicate KeysPast(s: Loop, now: int) {
    (forall k | k in s.seen :: k.timestamp <= now) && DatedRows(s.store.decisions, now)
  }

  /** Recording changes no row's date but a new last one's. */
  lemma {:induction false} RecordedDates(rows: seq<DecisionRow>, row: DecisionRow)
    ensures var after := RecordDecision(rows, row);
            && |rows| <= |after| <= |rows| + 1
            && (forall i | 0 <= i < |rows| ::
                  after[i].timestamp == rows[i].timestamp && after[i].cycle == rows[i].cycle)
            && (|after| > |rows| ==> after[|rows|] == row)
  {
    if rows != [] && rows[0].cycle != row.cycle {
      RecordedDates(rows[1..], row);
    }
  }

  lemma {:induction false} NewCycleIsAppended(rows: seq<DecisionRow>, row: DecisionRow)
    requires forall i | 0 <= i < |rows| :: rows[i].cycle != row.cycle
    ensures RecordDecision(rows, row) == rows + [row]
  {
    if rows != [] {
      NewCycleIsAppended(rows[1..], row);
    }
  }

  lemma RecordedKeysPast(rows: seq<DecisionRow>, row: DecisionRow, now: int)
    requires DatedRows(rows, now) && row.timestamp == row.cycle.timestamp == now
    ensures DatedRows(RecordDecision(rows, row), now)
  {
    RecordedDates(rows, row);
  }

  lemma {:induction false} MovesKeepKeysPast(s: Loop, cfg: Config, inp: Inputs, bar: Bar, moves: seq<Move>)
    requires KeysPast(s, bar.timestamp)
    ensures KeysPast(DoAll(s, cfg, inp, bar, moves), bar.timestamp)
  {
    if moves != [] {
      var init, m := moves[..|moves| - 1], moves[|moves| - 1];
      var before := DoAll(s, cfg, inp, bar, init);
      MovesKeepKeysPast(s, cfg, inp, bar, init);
      if m.AskMove? {
        SubmitWrites(before, cfg, inp, m.channel, m.order, bar);
      } else if m.CloseMove? {
        var row := DecisionRow(Key(cfg.symbol, bar.timestamp, Base), bar.timestamp, m.tradeId);
        RecordedKeysPast(before.store.decisions, row, bar.timestamp);
      }
    }
  }

  lemma CycleKeepsKeysPast(s: Loop, t: Loop, cfg: Config, step: Step, now: int)
    requires Cycles(s, t, cfg, step) && KeysPast(s, now) && now <= step.Bar().timestamp
    ensures KeysPast(t, step.Bar().timestamp)
  {
    var p, events, moves :| CycleVia(s, t, cfg, step, p, events, moves);
    MovesKeepKeysPast(p, cfg, step.inputs, step.Bar(), moves);
  }

  lemma {:induction false} RunKeepsKeysPast(s: Loop, cfg: Config, steps: seq<Step>, at: int, now: int)
    requires KeysPast(s, at) && InOrder(steps)
    requires if steps == [] then at <= now
             else at <= steps[0].Bar().timestamp && steps[|steps| - 1].Bar().timestamp <= now
    ensures KeysPast(RunSteps(s, cfg, steps), now)
    decreases |steps|
  {
    if steps != [] {
      var init, last := steps[..|steps| - 1], steps[|steps| - 1];
      var mid := RunSteps(s, cfg, init);
      RunKeepsKeysPast(s, cfg, init, at, last.Bar().timestamp);
      CycleCycles(mid, cfg, last);
      CycleKeepsKeysPast(mid, RunSteps(s, cfg, steps), cfg, last, last.Bar().timestamp);
    }
  }

  lemma RecoveredKeysPast(store: Store, now: int)
    requires DatedRows(store.decisions, now)
    ensures forall k | k in RecoveredSeen(store, map[]) :: k.timestamp <= now
  {
    var rows := Newest(store.decisions, DecisionTime, RECENT);
    NewestAreRows(store.decisions, DecisionTime, RECENT);
    forall k | k in RecoveredSeen(store, map[])
      ensures k.timestamp <= now
    {
      MarkedExactly(map[], rows, k);
      var i :| 0 <= i < |rows| && rows[i].cycle == k;
      assert rows[i] in store.decisions;
    }
  }

  // ---- any number of crashes ----

  lemma StartedIsMirrored(s: Loop, initial: real, mode: Mode, now: int)
    requires Mirrored(s, initial, now) && |s.store.trades| <= RECENT
    ensures Mirrored(Started(s.store, initial, mode), initial, now)
    ensures Written(Started(s.store, initial, mode), |s.store.trades|)
  {
    NewestReversed(s.store.trades, TradeTime, RECENT);
    ReplayKeepsOpening(initial, RowFills(s.store.trades));
  }

  lemma MirroredLater(s: Loop, initial: real, now: int, later: int)
    requires Mirrored(s, initial, now) && now <= later
    ensures Mirrored(s, initial, later)
  {
  }

  /** The last process's cycles come after all earlier ones. */
  lemma ProcessesInOrder(processes: seq<Process>)
    requires processes != [] && InOrder(AllSteps(processes))
    ensures var init, last := AllSteps(processes[..|processes| - 1]), processes[|processes| - 1].steps;
            && InOrder(init) && InOrder(last)
            && (last != [] ==> forall step | step in init :: step.Bar().timestamp <= last[0].Bar().timestamp)
            && (forall step | step in init :: step in AllSteps(processes))
            && (forall step | step in last :: step in AllSteps(processes))
  {
    var init, last := AllSteps(processes[..|processes| - 1]), processes[|processes| - 1].steps;
    var all := AllSteps(processes);
    assert forall i | 0 <= i < |init| :: init[i] == all[i];
    assert forall i | 0 <= i < |last| :: last[i] == all[|init| + i];
  }

  ghost predicate UpTo(steps: seq<Step>, now: int) { forall step | step in steps :: step.Bar().timestamp <= now }

  lemma {:induction false} LifeIsMirrored(initial: real, cfg: Config, processes: seq<Process>, now: int)
    requires ReliableLife(initial, cfg, processes) && UpTo(AllSteps(processes), now)
    ensures Mirrored(Life(initial, cfg, processes), initial, now)
    decreases |processes|
  {
    if processes == [] {
      BootIsMirrored(initial, PaperMode, now);
    } else {
      var init, last := processes[..|processes| - 1], processes[|processes| - 1];
      ProcessesInOrder(processes);
      var at := if last.steps == [] then now else last.steps[0].Bar().timestamp;
      LifeIsMirrored(initial, cfg, init, at);
      ProcessKeepsMirror(Life(initial, cfg, init), initial, cfg, last, at, now);
    }
  }

  lemma ProcessKeepsMirror(s: Loop, initial: real, cfg: Config, last: Process, at: int, now: int)
    requires Mirrored(s, initial, at) && |s.store.trades| <= RECENT
    requires ReliableRun(Started(s.store, initial, last.mode), cfg, last.steps)
    requires if last.steps == [] then at == now
             else at <= last.steps[0].Bar().timestamp && last.steps[|last.steps| - 1].Bar().timestamp <= now
    ensures Mirrored(RunSteps(Started(s.store, initial, last.mode), cfg, last.steps), initial, now)
  {
    StartedIsMirrored(s, initial, last.mode, at);
    var end := RunKeepsMirror(Started(s.store, initial, last.mode), cfg, last.steps, initial, at);
    MirroredLater(RunSteps(Started(s.store, initial, last.mode), cfg, last.steps), initial, end, now);
  }

  /**
   However often the agent crashed and was recovered: if every fill reached the log, in time order, and it holds at
   most 500 trades, recovering once more rebuilds the live ledger exactly, but for the day anchor and a peak between
   the initial capital and the live one.
   */
  lemma EveryRecoveryRebuildsLedger(initial: real, cfg: Config, processes: seq<Process>)
    requires ReliableLife(initial, cfg, processes) && |Life(initial, cfg, processes).store.trades| <= RECENT
    ensures var s := Life(initial, cfg, processes);
            var r := RecoveredLedger(s.store, initial);
            && r == s.ledger.(peak := r.peak, day := -1, dayStart := initial)
            && initial <= r.peak <= s.ledger.peak
  {
    var now := LastTime(AllSteps(processes));
    LifeIsMirrored(initial, cfg, processes, now);
    MirrorRestores(Life(initial, cfg, processes), initial, now);
  }

  lemma LastTime(steps: seq<Step>) returns (now: int)
    requires InOrder(steps)
    ensures UpTo(steps, now)
  {
    now := if steps == [] then 0 else steps[|steps| - 1].Bar().timestamp;
  }

  /** After any number of crashes too, all keys and decision rows are of bars up to the last. */
  lemma {:induction false} LifeKeysPast(initial: real, cfg: Config, processes: seq<Process>, now: int)
    requires InOrder(AllSteps(processes)) && UpTo(AllSteps(processes), now)
    ensures KeysPast(Life(initial, cfg, processes), now)
    decreases |processes|
  {
    if processes != [] {
      var init, last := processes[..|processes| - 1], processes[|processes| - 1];
      ProcessesInOrder(processes);
      var at := if last.steps == [] then now else last.steps[0].Bar().timestamp;
      LifeKeysPast(initial, cfg, init, at);
      ProcessKeepsKeysPast(Life(initial, cfg, init), initial, cfg, last, at, now);
    }
  }

  lemma ProcessKeepsKeysPast(s: Loop, initial: real, cfg: Config, last: Process, at: int, now: int)
    requires KeysPast(s, at) && InOrder(last.steps)
    requires if last.steps == [] then at == now
             else at <= last.steps[0].Bar().timestamp && last.steps[|last.steps| - 1].Bar().timestamp <= now
    ensures KeysPast(RunSteps(Started(s.store, initial, last.mode), cfg, last.steps), now)
  {
    RecoveredKeysPast(s.store, at);
    RunKeepsKeysPast(Started(s.store, initial, last.mode), cfg, last.steps, at, now);
  }
}
