/**
 The idempotency table against the log, over whole runs of a process: exactly which keys the executor answers by
 itself, whatever table the process started with.
 */
module KeyTables {
  import opened Market
  import opened Executors
  import opened Loops
  import opened LoopMoves

  /** A fill under the key, or, if `simulated`, a dry run's simulation. */
  predicate Took(e: Event, key: Key, simulated: bool) {
    (e.Filled? || (simulated && e.Simulated?)) && e.key == key
  }

  ghost predicate NoSwitchAfter(log: seq<Event>, i: nat) {
    forall k | i < k < |log| :: !log[k].ModeSwitched?
  }

  ghost predicate NoSwitch(log: seq<Event>) { forall e | e in log :: !e.ModeSwitched? }

  /** The key was taken, and no mode switch followed. */
  ghost predicate SinceSwitch(log: seq<Event>, key: Key, simulated: bool) {
    exists i | 0 <= i < |log| :: Took(log[i], key, simulated) && NoSwitchAfter(log, i)
  }

  ghost predicate FilledSinceSwitch(log: seq<Event>, key: Key) { SinceSwitch(log, key, false) }

  /** Filled or simulated since the last switch. */
  ghost predicate TakenSinceSwitch(log: seq<Event>, key: Key) { SinceSwitch(log, key, true) }

  predicate Remembers(seen: Seen, key: Key) { key in seen && seen[key].IsRemembered() }

  predicate HoldsFill(seen: Seen, key: Key) { key in seen && seen[key].status.FILLED? }

  /** The table holds what the log took since the last switch and, as long as there was none, what it started with. */
  ghost predicate TableIsLog(start: Seen, log: seq<Event>, seen: Seen) {
    && (forall key: Key :: Remembers(seen, key)
          <==> TakenSinceSwitch(log, key) || (NoSwitch(log) && Remembers(start, key)))
    && (forall key: Key :: HoldsFill(seen, key)
          <==> FilledSinceSwitch(log, key) || (NoSwitch(log) && HoldsFill(start, key)))
  }

  lemma NoSwitchAppend(log: seq<Event>, e: Event)
    ensures NoSwitch(log + [e]) <==> NoSwitch(log) && !e.ModeSwitched?
  {
    assert (log + [e])[|log|] == e && forall i | 0 <= i < |log| :: (log + [e])[i] == log[i];
  }

  lemma SinceAppend(log: seq<Event>, e: Event, key: Key, simulated: bool)
    ensures SinceSwitch(log + [e], key, simulated)
            <==> !e.ModeSwitched? && (Took(e, key, simulated) || SinceSwitch(log, key, simulated))
  {
    var longer := log + [e];
    assert longer[|log|] == e;
    assert forall i | 0 <= i < |log| :: longer[i] == log[i];
    if SinceSwitch(log, key, simulated) && !e.ModeSwitched? {
      var i :| 0 <= i < |log| && Took(log[i], key, simulated) && NoSwitchAfter(log, i);
      assert Took(longer[i], key, simulated) && NoSwitchAfter(longer, i);
    }
    if Took(e, key, simulated) {
      assert Took(longer[|log|], key, simulated) && NoSwitchAfter(longer, |log|);
    }
    if SinceSwitch(longer, key, simulated) {
      var i :| 0 <= i < |longer| && Took(longer[i], key, simulated) && NoSwitchAfter(longer, i);
      if i < |log| {
        assert Took(log[i], key, simulated) && NoSwitchAfter(log, i);
      }
    }
  }

  lemma TakenAppend(log: seq<Event>, e: Event, key: Key)
    ensures TakenSinceSwitch(log + [e], key)
            <==> !e.ModeSwitched? && (Took(e, key, true) || TakenSinceSwitch(log, key))
    ensures FilledSinceSwitch(log + [e], key)
            <==> !e.ModeSwitched? && (Took(e, key, false) || FilledSinceSwitch(log, key))
  {
    SinceAppend(log, e, key, true);
    SinceAppend(log, e, key, false);
  }

  predicate IsQuiet(e: Event) { !e.Filled? && !e.Simulated? && !e.ModeSwitched? }

  /** An event that neither takes a key nor switches leaves table and log agreed. */
  lemma QuietEventKeepsTable(start: Seen, log: seq<Event>, seen: Seen, e: Event)
    requires TableIsLog(start, log, seen) && IsQuiet(e)
    ensures TableIsLog(start, log + [e], seen)
  {
    NoSwitchAppend(log, e);
    forall key: Key
      ensures TakenSinceSwitch(log + [e], key) <==> TakenSinceSwitch(log, key)
      ensures FilledSinceSwitch(log + [e], key) <==> FilledSinceSwitch(log, key)
    {
      TakenAppend(log, e, key);
    }
  }

  lemma {:induction false} QuietEventsKeepTable(start: Seen, log: seq<Event>, seen: Seen, events: seq<Event>)
    requires TableIsLog(start, log, seen) && forall e | e in events :: IsQuiet(e)
    ensures TableIsLog(start, log + events, seen)
  {
    if events == [] {
      assert log + events == log;
    } else {
      var init := events[..|events| - 1];
      QuietEventsKeepTable(start, log, seen, init);
      QuietEventKeepsTable(start, log + init, seen, events[|events| - 1]);
      assert log + init + [events[|events| - 1]] == log + events;
    }
  }

  lemma SwitchEmptiesTable(start: Seen, log: seq<Event>, e: Event)
    requires e.ModeSwitched?
    ensures TableIsLog(start, log + [e], map[])
  {
    NoSwitchAppend(log, e);
    forall key: Key
      ensures !TakenSinceSwitch(log + [e], key) && !FilledSinceSwitch(log + [e], key)
    {
      TakenAppend(log, e, key);
    }
  }

  /** A key not remembered before is taken, by a fill or a simulation. */
  lemma TakingKeepsTable(start: Seen, log: seq<Event>, seen: Seen, e: Event, report: Report)
    requires TableIsLog(start, log, seen)
    requires if e.Filled? then report.status.FILLED? else e.Simulated? && report.status.SIMULATED?
    requires !Remembers(seen, e.key)
    ensures TableIsLog(start, log + [e], seen[e.key := report])
  {
    NoSwitchAppend(log, e);
    forall key: Key
      ensures Remembers(seen[e.key := report], key) <==>
                TakenSinceSwitch(log + [e], key) || (NoSwitch(log + [e]) && Remembers(start, key))
      ensures HoldsFill(seen[e.key := report], key) <==>
                FilledSinceSwitch(log + [e], key) || (NoSwitch(log + [e]) && HoldsFill(start, key))
    {
      TakenAppend(log, e, key);
      assert HoldsFill(seen, key) ==> Remembers(seen, key);
    }
  }

  /** A report that is no fill moves the watchdog and the log, and nothing else. */
  lemma NoFillOnlyNotes(s: Loop, key: Key, report: Report, bar: Bar, inp: Inputs)
    requires !report.IsFill()
    ensures var t := HandleExecution(s, key, report, bar, inp).state; t == s.(log := t.log, watch := t.watch)
  {
  }

  lemma KnownKeySubmits(s: Loop, cfg: Config, inp: Inputs, channel: Channel, order: Order, bar: Bar)
    requires Remembers(s.seen, Key(cfg.symbol, bar.timestamp, channel))
    ensures var key := Key(cfg.symbol, bar.timestamp, channel);
            Submit(s, cfg, inp, channel, order, bar)
            == Traded(s.(log := s.log + [Asked(key)] + [Blocked(key)]), None, false)
  {
  }

  lemma NewKeySubmits(s: Loop, cfg: Config, inp: Inputs, channel: Channel, order: Order, bar: Bar)
    requires !Remembers(s.seen, Key(cfg.symbol, bar.timestamp, channel))
    ensures var key := Key(cfg.symbol, bar.timestamp, channel);
            var reply := inp.venue(key, order);
            var asked := Note(s, Asked(key)).(seen := ExecuteOnce(s.seen, key, order, reply).seen);
            Submit(s, cfg, inp, channel, order, bar)
            == if reply.Raises? then Traded(asked, None, true)
               else
                 var h := HandleExecution(asked, key, reply.report, bar, inp);
                 Traded(h.state, h.tradeId, false)
  {
  }

  lemma SubmitKeepsTable(start: Seen, s: Loop, cfg: Config, inp: Inputs, channel: Channel, order: Order, bar: Bar)
    requires ProperVenue(inp) && TableIsLog(start, s.log, s.seen)
    ensures var b := Submit(s, cfg, inp, channel, order, bar).state; TableIsLog(start, b.log, b.seen)
  {
    var key := Key(cfg.symbol, bar.timestamp, channel);
    QuietEventKeepsTable(start, s.log, s.seen, Asked(key));
    if Remembers(s.seen, key) {
      KnownKeySubmits(s, cfg, inp, channel, order, bar);
      QuietEventKeepsTable(start, s.log + [Asked(key)], s.seen, Blocked(key));
    } else {
      NewKeySubmits(s, cfg, inp, channel, order, bar);
      var reply := inp.venue(key, order);
      assert reply.Proper();
      if reply.Answer? {
        var asked := Note(s, Asked(key)).(seen := ExecuteOnce(s.seen, key, order, reply).seen);
        AnswerKeepsTable(start, Note(s, Asked(key)), asked, key, reply.report, bar, inp);
      }
    }
  }

  /** The answer to a key not remembered. */
  lemma AnswerKeepsTable(start: Seen, a: Loop, asked: Loop, key: Key, report: Report, bar: Bar, inp: Inputs)
    requires TableIsLog(start, a.log, a.seen) && !Remembers(a.seen, key) && Answer(report).Proper()
    requires asked == a.(seen := Remember(a.seen, key, report))
    ensures var b := HandleExecution(asked, key, report, bar, inp).state; TableIsLog(start, b.log, b.seen)
  {
    match report.status
    case FILLED =>
      FillWrites(asked, key, report, report.fill.value, bar, inp);
      TakingKeepsTable(start, a.log, a.seen, Filled(key, report.fill.value, a.mode), report);
    case SIMULATED =>
      TakingKeepsTable(start, a.log, a.seen, Simulated(key), report);
    case REJECTED =>
      QuietEventKeepsTable(start, a.log, a.seen, Blocked(key));
    case FAILED =>
      QuietEventKeepsTable(start, a.log, a.seen, Failed(key, report.order.timestamp));
      QuietEventKeepsTable(start, a.log + [Failed(key, report.order.timestamp)], a.seen, FailureAlert);
  }

  lemma {:induction false} MovesKeepTable(start: Seen, s: Loop, cfg: Config, inp: Inputs, bar: Bar, moves: seq<Move>)
    requires ProperVenue(inp) && TableIsLog(start, s.log, s.seen)
    ensures var t := DoAll(s, cfg, inp, bar, moves); TableIsLog(start, t.log, t.seen)
  {
    if moves != [] {
      var m, before := moves[|moves| - 1], DoAll(s, cfg, inp, bar, moves[..|moves| - 1]);
      MovesKeepTable(start, s, cfg, inp, bar, moves[..|moves| - 1]);
      if m.AskMove? {
        SubmitKeepsTable(start, before, cfg, inp, m.channel, m.order, bar);
      }
    }
  }

  lemma PreparationKeepsTable(start: Seen, s: Loop, p: Loop, cfg: Config, inp: Inputs, bar: Bar, events: seq<Event>)
    requires Prepared(s, p, cfg, inp, bar, events) && TableIsLog(start, s.log, s.seen)
    ensures TableIsLog(start, p.log, p.seen)
  {
    var watch := WatchEvents(s.watch, bar.timestamp);
    assert p.log == s.log + watch + events;
    assert forall e | e in watch :: e.FailureWarned? || e.AutoHalted?;
    QuietEventsKeepTable(start, s.log, s.seen, watch);
    if events == [] {
      assert p.log == s.log + watch;
    } else {
      assert events == [events[0]];
      if events[0].ModeSwitched? {
        SwitchEmptiesTable(start, s.log + watch, events[0]);
      } else {
        QuietEventKeepsTable(start, s.log + watch, s.seen, events[0]);
      }
    }
  }

  lemma CycleKeepsTable(start: Seen, s: Loop, t: Loop, cfg: Config, step: Step)
    requires Cycles(s, t, cfg, step) && ProperVenue(step.inputs) && TableIsLog(start, s.log, s.seen)
    ensures TableIsLog(start, t.log, t.seen)
  {
    var p, events, moves :| CycleVia(s, t, cfg, step, p, events, moves);
    PreparationKeepsTable(start, s, p, cfg, step.inputs, step.Bar(), events);
    MovesKeepTable(start, p, cfg, step.inputs, step.Bar(), moves);
  }

  /** Over every run of a process, whatever table it started with. */
  lemma {:induction false} RunKeepsTable(s: Loop, cfg: Config, steps: seq<Step>)
    requires s.log == [] && forall step | step in steps :: ProperVenue(step.inputs)
    ensures var t := RunSteps(s, cfg, steps); TableIsLog(s.seen, t.log, t.seen)
    decreases |steps|
  {
    if steps != [] {
      var init, last := steps[..|steps| - 1], steps[|steps| - 1];
      RunKeepsTable(s, cfg, init);
      var before := RunSteps(s, cfg, init);
      CycleCycles(before, cfg, last);
      CycleKeepsTable(s.seen, before, RunSteps(s, cfg, steps), cfg, last);
    }
  }

  /**
   At the end of any run from boot, an order under a key goes out to the venue if and only if nothing was filled or
   simulated under that key since the last mode switch; repeated bars, failures and exceptions change nothing in that.
   */
  lemma AskedAgainIffSwitched(initial: real, mode: Mode, cfg: Config, steps: seq<Step>, key: Key, order: Order)
    requires forall step | step in steps :: ProperVenue(step.inputs)
    ensures var s := RunSteps(Boot(initial, mode), cfg, steps);
            CheckDupe(s.seen, key, order).None? <==> !TakenSinceSwitch(s.log, key)
  {
    RunKeepsTable(Boot(initial, mode), cfg, steps);
    DupeIffTaken(map[], RunSteps(Boot(initial, mode), cfg, steps), key, order);
  }

  lemma DupeIffTaken(start: Seen, s: Loop, key: Key, order: Order)
    requires TableIsLog(start, s.log, s.seen)
    ensures CheckDupe(s.seen, key, order).None?
            <==> !TakenSinceSwitch(s.log, key) && (NoSwitch(s.log) ==> !Remembers(start, key))
  {
    assert Remembers(s.seen, key) <==> TakenSinceSwitch(s.log, key) || (NoSwitch(s.log) && Remembers(start, key));
  }
}
