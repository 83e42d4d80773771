/**
 The sustained-failure watchdog and the failure alerts, over whole runs. The log tells the story; the
 loop's three watch fields are shown to summarise it, and every automatic halt to be justified by it.
 */
module Watchdog {
  import opened Market
  import opened Executors
  import opened Loops
  import opened LoopMoves

  /** The events after the last fill. */
  function SinceFill(log: seq<Event>): seq<Event> {
    if log == [] || log[|log| - 1].Filled? then []
    else SinceFill(log[..|log| - 1]) + [log[|log| - 1]]
  }

  function Failures(log: seq<Event>): nat {
    if log == [] then 0
    else Failures(log[..|log| - 1]) + if log[|log| - 1].Failed? then 1 else 0
  }

  function Alerts(log: seq<Event>): nat {
    if log == [] then 0
    else Alerts(log[..|log| - 1]) + if log[|log| - 1].FailureAlert? then 1 else 0
  }

  function Warnings(log: seq<Event>): nat {
    if log == [] then 0
    else Warnings(log[..|log| - 1]) + if log[|log| - 1].FailureWarned? then 1 else 0
  }

  /** From the failure at position k on: no fill, no halt, and one warning if `warned`, else none. */
  ghost predicate Streak(log: seq<Event>, k: nat, since: int, warned: bool) {
    && k < |log| && log[k].Failed? && log[k].at == since
    && (forall i | k < i < |log| :: !log[i].Filled? && !log[i].AutoHalted?)
    && Warnings(log[k..]) == if warned then 1 else 0
  }

  /** The halt at position h ends a streak of at least four hours that was warned about exactly once. */
  ghost predicate Justified(log: seq<Event>, h: nat)
    requires h < |log| && log[h].AutoHalted?
  {
    && log[h].at - log[h].since >= HALT_MS
    && exists k: nat :: Streak(log[..h], k, log[h].since, true)
  }

  ghost predicate Tallied(log: seq<Event>, failures: nat) {
    Failures(SinceFill(log)) == ALERT_THRESHOLD * Alerts(SinceFill(log)) + failures
  }

  ghost predicate StreakKnown(log: seq<Event>, since: Option<int>, warned: bool) {
    && (since.None? ==> !warned)
    && (since.Some? ==> exists k: nat :: Streak(log, k, since.value, warned))
    && forall h | 0 <= h < |log| && log[h].AutoHalted? :: Justified(log, h)
  }

  ghost predicate Summarised(log: seq<Event>, w: Watch) {
    && w.failures < ALERT_THRESHOLD
    && Tallied(log, w.failures)
    && StreakKnown(log, w.since, w.warned)
  }

  lemma CountsAppend(log: seq<Event>, e: Event)
    ensures Failures(log + [e]) == Failures(log) + if e.Failed? then 1 else 0
    ensures Alerts(log + [e]) == Alerts(log) + if e.FailureAlert? then 1 else 0
    ensures Warnings(log + [e]) == Warnings(log) + if e.FailureWarned? then 1 else 0
    ensures SinceFill(log + [e]) == if e.Filled? then [] else SinceFill(log) + [e]
  {
    assert (log + [e])[..|log|] == log;
  }

  lemma HaltsStayJustified(log: seq<Event>, e: Event)
    requires forall h | 0 <= h < |log| && log[h].AutoHalted? :: Justified(log, h)
    ensures forall h | 0 <= h < |log| && log[h].AutoHalted? :: Justified(log + [e], h)
  {
    forall h | 0 <= h < |log| && log[h].AutoHalted?
      ensures Justified(log + [e], h)
    {
      assert Justified(log, h);
      assert (log + [e])[..h] == log[..h];
    }
  }

  lemma StreakGrows(log: seq<Event>, k: nat, since: int, warned: bool, e: Event)
    requires Streak(log, k, since, warned) && !e.Filled? && !e.AutoHalted?
    requires e.FailureWarned? ==> !warned
    ensures Streak(log + [e], k, since, warned || e.FailureWarned?)
  {
    assert (log + [e])[k..] == log[k..] + [e];
    CountsAppend(log[k..], e);
  }

  /** An event that neither fills nor halts keeps the streak; a warning is counted, once. */
  lemma StreakAppend(log: seq<Event>, since: Option<int>, warned: bool, e: Event)
    requires StreakKnown(log, since, warned) && !e.Filled? && !e.AutoHalted?
    requires e.FailureWarned? ==> since.Some? && !warned
    ensures StreakKnown(log + [e], since, warned || e.FailureWarned?)
  {
    HaltsStayJustified(log, e);
    if since.Some? {
      var k: nat :| Streak(log, k, since.value, warned);
      StreakGrows(log, k, since.value, warned, e);
    }
  }

  lemma TallyAppend(log: seq<Event>, failures: nat, e: Event)
    requires Tallied(log, failures)
    ensures e.Filled? ==> Tallied(log + [e], 0)
    ensures e.Failed? ==> Tallied(log + [e], failures + 1)
    ensures e.FailureAlert? && failures == ALERT_THRESHOLD ==> Tallied(log + [e], 0)
    ensures !e.Filled? && !e.Failed? && !e.FailureAlert? ==> Tallied(log + [e], failures)
  {
    CountsAppend(log, e);
    CountsAppend(SinceFill(log), e);
  }

  predicate IsNeutral(e: Event) {
    e.ModeDeferred? || e.ModeSwitched? || e.RebuildFailed? || e.Asked? || e.Blocked? || e.Simulated?
  }

  lemma NeutralEvent(log: seq<Event>, w: Watch, e: Event)
    requires Summarised(log, w) && IsNeutral(e)
    ensures Summarised(log + [e], w)
  {
    TallyAppend(log, w.failures, e);
    StreakAppend(log, w.since, w.warned, e);
  }

  lemma FillEvent(log: seq<Event>, w: Watch, e: Event)
    requires Summarised(log, w) && e.Filled?
    ensures Summarised(log + [e], Watch(0, None, false))
  {
    TallyAppend(log, w.failures, e);
    HaltsStayJustified(log, e);
  }

  /** A failure starts a streak or prolongs it. */
  lemma FailureStreak(log: seq<Event>, since: Option<int>, warned: bool, e: Event)
    requires StreakKnown(log, since, warned) && e.Failed?
    ensures StreakKnown(log + [e], if since.None? then Some(e.at) else since, warned)
  {
    StreakAppend(log, since, warned, e);
    if since.None? {
      assert (log + [e])[|log|..] == [e];
      CountsAppend([], e);
      assert [] + [e] == [e];
      assert Streak(log + [e], |log|, e.at, false);
    }
  }

  lemma FailureEvents(log: seq<Event>, w: Watch, e: Event)
    requires Summarised(log, w) && e.Failed?
    ensures var since := if w.since.None? then Some(e.at) else w.since;
            if w.failures + 1 >= ALERT_THRESHOLD
            then Summarised(log + [e] + [FailureAlert], Watch(0, since, w.warned))
            else Summarised(log + [e], Watch(w.failures + 1, since, w.warned))
  {
    var since := if w.since.None? then Some(e.at) else w.since;
    TallyAppend(log, w.failures, e);
    FailureStreak(log, w.since, w.warned, e);
    if w.failures + 1 >= ALERT_THRESHOLD {
      TallyAppend(log + [e], w.failures + 1, FailureAlert);
      StreakAppend(log + [e], since, w.warned, FailureAlert);
    }
  }

  lemma WarningEvent(log: seq<Event>, w: Watch, now: int)
    requires Summarised(log, w) && w.since.Some? && !w.warned
    ensures Summarised(log + [FailureWarned(now)], w.(warned := true))
  {
    TallyAppend(log, w.failures, FailureWarned(now));
    StreakAppend(log, w.since, w.warned, FailureWarned(now));
  }

  lemma HaltEvent(log: seq<Event>, w: Watch, now: int)
    requires Summarised(log, w) && w.since.Some? && w.warned && now - w.since.value >= HALT_MS
    ensures Summarised(log + [AutoHalted(now, w.since.value)], w.(since := None, warned := false))
  {
    var e := AutoHalted(now, w.since.value);
    TallyAppend(log, w.failures, e);
    HaltsStayJustified(log, e);
    assert (log + [e])[..|log|] == log;
    assert Justified(log + [e], |log|);
  }

  lemma CheckEventsInOrder(log: seq<Event>, w: Watch, now: int)
    requires w.since.Some? && now - w.since.value >= WARN_MS
    ensures var warned := if w.warned then log else log + [FailureWarned(now)];
            log + WatchEvents(w, now)
            == if now - w.since.value >= HALT_MS then warned + [AutoHalted(now, w.since.value)] else warned
  {
  }

  lemma CheckKeepsSummary(log: seq<Event>, w: Watch, now: int)
    requires Summarised(log, w)
    ensures Summarised(log + WatchEvents(w, now), WatchAfter(w, now))
  {
    if w.since.None? || now - w.since.value < WARN_MS {
      assert log + WatchEvents(w, now) == log;
    } else {
      CheckEventsInOrder(log, w, now);
      WarnedKeepsSummary(log, w, now);
      if now - w.since.value >= HALT_MS {
        HaltEvent(if w.warned then log else log + [FailureWarned(now)], w.(warned := true), now);
      }
    }
  }

  lemma WarnedKeepsSummary(log: seq<Event>, w: Watch, now: int)
    requires Summarised(log, w) && w.since.Some?
    ensures Summarised(if w.warned then log else log + [FailureWarned(now)], w.(warned := true))
  {
    if w.warned {
      assert w.(warned := true) == w;
    } else {
      WarningEvent(log, w, now);
    }
  }

  lemma FailureKeepsSummary(a: Loop, b: Loop, key: Key)
    requires WroteFailure(a, b, key) && Summarised(a.log, a.watch)
    ensures Summarised(b.log, b.watch)
  {
    var asked, e := a.log + [Asked(key)], b.log[|a.log| + 1];
    NeutralEvent(a.log, a.watch, Asked(key));
    FailureEvents(asked, a.watch, e);
    FailureLog(a, b, key, e);
  }

  lemma FailureLog(a: Loop, b: Loop, key: Key, e: Event)
    requires WroteFailure(a, b, key) && e == b.log[|a.log| + 1]
    ensures b.log == if a.watch.failures + 1 >= ALERT_THRESHOLD then a.log + [Asked(key)] + [e] + [FailureAlert]
                     else a.log + [Asked(key)] + [e]
  {
    if a.watch.failures + 1 >= ALERT_THRESHOLD {
      assert b.log == a.log + [Asked(key), e, FailureAlert];
    } else {
      assert b.log == a.log + [Asked(key), e];
    }
  }

  lemma FillKeepsSummary(a: Loop, b: Loop, key: Key, order: Order, inp: Inputs)
    requires WroteFill(a, b, key, order, inp) && Summarised(a.log, a.watch)
    ensures Summarised(b.log, b.watch)
  {
    var asked, e := a.log + [Asked(key)], b.log[|a.log| + 1];
    NeutralEvent(a.log, a.watch, Asked(key));
    FillEvent(asked, a.watch, e);
    assert b.log == asked + [e];
  }

  lemma SubmissionKeepsSummary(a: Loop, b: Loop, key: Key, order: Order, inp: Inputs)
    requires Wrote(a, b, key, order, inp) && Summarised(a.log, a.watch)
    ensures Summarised(b.log, b.watch)
  {
    var asked := a.log + [Asked(key)];
    NeutralEvent(a.log, a.watch, Asked(key));
    if WroteFailure(a, b, key) {
      FailureKeepsSummary(a, b, key);
    } else if WroteFill(a, b, key, order, inp) {
      FillKeepsSummary(a, b, key, order, inp);
    } else if b.log != asked {
      var e := if b.log == asked + [Blocked(key)] then Blocked(key) else Simulated(key);
      NeutralEvent(asked, a.watch, e);
      assert b.log == asked + [e];
    }
  }

  lemma {:induction false} MovesKeepSummary(s: Loop, cfg: Config, inp: Inputs, bar: Bar, moves: seq<Move>)
    requires Summarised(s.log, s.watch)
    ensures var t := DoAll(s, cfg, inp, bar, moves); Summarised(t.log, t.watch)
  {
    if moves != [] {
      MovesKeepSummary(s, cfg, inp, bar, moves[..|moves| - 1]);
      MoveKeepsSummary(DoAll(s, cfg, inp, bar, moves[..|moves| - 1]), cfg, inp, bar, moves[|moves| - 1]);
    }
  }

  lemma MoveKeepsSummary(s: Loop, cfg: Config, inp: Inputs, bar: Bar, m: Move)
    requires Summarised(s.log, s.watch)
    ensures var t := Do(s, cfg, inp, bar, m); Summarised(t.log, t.watch)
  {
    if m.AskMove? {
      SubmitWrites(s, cfg, inp, m.channel, m.order, bar);
      SubmissionKeepsSummary(s, Do(s, cfg, inp, bar, m), Key(cfg.symbol, bar.timestamp, m.channel), m.order, inp);
    }
  }

  lemma CycleKeepsSummary(s: Loop, t: Loop, cfg: Config, step: Step)
    requires Cycles(s, t, cfg, step) && Summarised(s.log, s.watch)
    ensures Summarised(t.log, t.watch)
  {
    var now := step.Bar().timestamp;
    var p, events, moves :| CycleVia(s, t, cfg, step, p, events, moves);
    CheckKeepsSummary(s.log, s.watch, now);
    var checked := s.log + WatchEvents(s.watch, now);
    assert p.log == checked + events;
    if events == [] {
      assert p.log == checked;
    } else {
      NeutralEvent(checked, WatchAfter(s.watch, now), events[0]);
      assert events == [events[0]];
    }
    MovesKeepSummary(p, cfg, step.inputs, step.Bar(), moves);
  }

  lemma {:induction false} SummarisedUpTo(states: seq<Loop>, cfg: Config, steps: seq<Step>, i: nat)
    requires Follows(states, cfg, steps) && i <= |steps| && Summarised(states[0].log, states[0].watch)
    ensures Summarised(states[i].log, states[i].watch)
  {
    if i > 0 {
      SummarisedUpTo(states, cfg, steps, i - 1);
      CycleKeepsSummary(states[i - 1], states[i], cfg, steps[i - 1]);
    }
  }

  /** At every point of every run the three watch fields summarise the log. */
  lemma RunIsSummarised(s: Loop, cfg: Config, steps: seq<Step>)
    requires Summarised(s.log, s.watch)
    ensures forall t | t in Trace(s, cfg, steps) :: Summarised(t.log, t.watch)
  {
    TraceFollows(s, cfg, steps);
    forall i | 0 <= i <= |steps|
      ensures Summarised(Trace(s, cfg, steps)[i].log, Trace(s, cfg, steps)[i].watch)
    {
      SummarisedUpTo(Trace(s, cfg, steps), cfg, steps, i);
    }
  }

  /**
   At any point of any run: an automatic halt at time t has a FAILED execution at or before t - 4h with
   no fill since and exactly one warning, and the failures since the last fill raised one alert per three.
   */
  lemma HaltsAndAlertsAreEarned(initial: real, mode: Mode, cfg: Config, steps: seq<Step>)
    ensures forall t | t in Trace(Boot(initial, mode), cfg, steps) ::
              && (forall h | 0 <= h < |t.log| && t.log[h].AutoHalted? :: Justified(t.log, h))
              && Alerts(SinceFill(t.log)) == Failures(SinceFill(t.log)) / ALERT_THRESHOLD
  {
    var boot := Boot(initial, mode);
    RunIsSummarised(boot, cfg, steps);
    forall t | t in Trace(boot, cfg, steps)
      ensures (forall h | 0 <= h < |t.log| && t.log[h].AutoHalted? :: Justified(t.log, h))
      ensures Alerts(SinceFill(t.log)) == Failures(SinceFill(t.log)) / ALERT_THRESHOLD
    {
      assert Summarised(t.log, t.watch);
    }
  }

  // ---- and every one earned is given ----

  /** When the current streak began: the first failure since the last fill or halt. */
  function FirstFailure(log: seq<Event>): Option<int> {
    if log == [] then None
    else
      var before, e := FirstFailure(log[..|log| - 1]), log[|log| - 1];
      if e.Filled? || e.AutoHalted? then None
      else if before.None? && e.Failed? then Some(e.at)
      else before
  }

  /** A warning was given since the last fill or halt. */
  predicate WarnedAlready(log: seq<Event>) {
    log != [] && var e := log[|log| - 1];
                 if e.Filled? || e.AutoHalted? then false else e.FailureWarned? || WarnedAlready(log[..|log| - 1])
  }

  /** The watch is exactly what the log says. */
  ghost predicate WatchIsLog(log: seq<Event>, since: Option<int>, warned: bool) {
    since == FirstFailure(log) && warned == WarnedAlready(log)
  }

  lemma WatchAppend(log: seq<Event>, e: Event)
    ensures FirstFailure(log + [e]) == if e.Filled? || e.AutoHalted? then None
                                       else if FirstFailure(log).None? && e.Failed? then Some(e.at)
                                        else FirstFailure(log)
    ensures WarnedAlready(log + [e]) == if e.Filled? || e.AutoHalted? then false
                                        else e.FailureWarned? || WarnedAlready(log)
  {
    assert (log + [e])[..|log|] == log;
  }

  lemma CheckKeepsWatch(log: seq<Event>, w: Watch, now: int)
    requires WatchIsLog(log, w.since, w.warned)
    ensures var v := WatchAfter(w, now); WatchIsLog(log + WatchEvents(w, now), v.since, v.warned)
  {
    if w.since.None? || now - w.since.value < WARN_MS {
      assert log + WatchEvents(w, now) == log;
    } else {
      CheckEventsInOrder(log, w, now);
      WatchAppend(log, FailureWarned(now));
      WatchAppend(if w.warned then log else log + [FailureWarned(now)], AutoHalted(now, w.since.value));
    }
  }

  lemma FailureKeepsWatch(a: Loop, b: Loop, key: Key)
    requires WroteFailure(a, b, key) && WatchIsLog(a.log, a.watch.since, a.watch.warned)
    ensures WatchIsLog(b.log, b.watch.since, b.watch.warned)
  {
    var asked, e := a.log + [Asked(key)], b.log[|a.log| + 1];
    FailureLog(a, b, key, e);
    WatchAppend(a.log, Asked(key));
    WatchAppend(asked, e);
    WatchAppend(asked + [e], FailureAlert);
  }

  lemma SubmissionKeepsWatch(a: Loop, b: Loop, key: Key, order: Order, inp: Inputs)
    requires Wrote(a, b, key, order, inp) && WatchIsLog(a.log, a.watch.since, a.watch.warned)
    ensures WatchIsLog(b.log, b.watch.since, b.watch.warned)
  {
    var asked := a.log + [Asked(key)];
    WatchAppend(a.log, Asked(key));
    if WroteFailure(a, b, key) {
      FailureKeepsWatch(a, b, key);
    } else if b.log != asked {
      var e := b.log[|asked|];
      assert b.log == asked + [e];
      WatchAppend(asked, e);
    }
  }

  lemma {:induction false} MovesKeepWatch(s: Loop, cfg: Config, inp: Inputs, bar: Bar, moves: seq<Move>)
    requires WatchIsLog(s.log, s.watch.since, s.watch.warned)
    ensures var t := DoAll(s, cfg, inp, bar, moves); WatchIsLog(t.log, t.watch.since, t.watch.warned)
  {
    if moves != [] {
      var before, m := DoAll(s, cfg, inp, bar, moves[..|moves| - 1]), moves[|moves| - 1];
      MovesKeepWatch(s, cfg, inp, bar, moves[..|moves| - 1]);
      if m.AskMove? {
        SubmitWrites(before, cfg, inp, m.channel, m.order, bar);
        var after, key := Do(before, cfg, inp, bar, m), Key(cfg.symbol, bar.timestamp, m.channel);
        SubmissionKeepsWatch(before, after, key, m.order, inp);
      }
    }
  }

  lemma PreparedLog(s: Loop, p: Loop, cfg: Config, step: Step, events: seq<Event>)
    requires Prepared(s, p, cfg, step.inputs, step.Bar(), events)
    ensures p.log == (s.log + WatchEvents(s.watch, step.Bar().timestamp)) + events
    ensures p.watch == WatchAfter(s.watch, step.Bar().timestamp)
    ensures events == [] || (|events| == 1 && IsNeutral(events[0]))
  {
  }

  lemma NeutralKeepsWatch(log: seq<Event>, since: Option<int>, warned: bool, events: seq<Event>)
    requires WatchIsLog(log, since, warned) && (events == [] || (|events| == 1 && IsNeutral(events[0])))
    ensures WatchIsLog(log + events, since, warned)
  {
    if events == [] {
      assert log + events == log;
    } else {
      assert events == [events[0]];
      WatchAppend(log, events[0]);
    }
  }

  lemma PreparationKeepsWatch(s: Loop, p: Loop, cfg: Config, step: Step, events: seq<Event>)
    requires Prepared(s, p, cfg, step.inputs, step.Bar(), events) && WatchIsLog(s.log, s.watch.since, s.watch.warned)
    ensures WatchIsLog(p.log, p.watch.since, p.watch.warned)
  {
    var now := step.Bar().timestamp;
    PreparedLog(s, p, cfg, step, events);
    CheckKeepsWatch(s.log, s.watch, now);
    NeutralKeepsWatch(s.log + WatchEvents(s.watch, now), p.watch.since, p.watch.warned, events);
  }

  lemma CycleKeepsWatch(s: Loop, t: Loop, cfg: Config, step: Step)
    requires Cycles(s, t, cfg, step) && WatchIsLog(s.log, s.watch.since, s.watch.warned)
    ensures WatchIsLog(t.log, t.watch.since, t.watch.warned)
  {
    var p, events, moves :| CycleVia(s, t, cfg, step, p, events, moves);
    PreparationKeepsWatch(s, p, cfg, step, events);
    MovesKeepWatch(p, cfg, step.inputs, step.Bar(), moves);
  }

  lemma {:induction false} RunKeepsWatch(s: Loop, cfg: Config, steps: seq<Step>)
    requires WatchIsLog(s.log, s.watch.since, s.watch.warned)
    ensures var t := RunSteps(s, cfg, steps); WatchIsLog(t.log, t.watch.since, t.watch.warned)
    decreases |steps|
  {
    if steps != [] {
      var init, last := steps[..|steps| - 1], steps[|steps| - 1];
      RunKeepsWatch(s, cfg, init);
      CycleCycles(RunSteps(s, cfg, init), cfg, last);
      CycleKeepsWatch(RunSteps(s, cfg, init), RunSteps(s, cfg, steps), cfg, last);
    }
  }

  /** From `s` to `t`, the log has grown, and only what the watchdog noted in between warns or halts. */
  ghost predicate WatchdogOnly(s: Loop, t: Loop, now: int) {
    && s.log <= t.log
    && (forall e | e in t.log[|s.log|..] && (e.FailureWarned? || e.AutoHalted?) :: e in WatchEvents(s.watch, now))
    && forall e | e in WatchEvents(s.watch, now) :: e in t.log[|s.log|..]
  }

  lemma {:induction false} MovesNeverWarn(s: Loop, cfg: Config, inp: Inputs, bar: Bar, moves: seq<Move>)
    ensures var t := DoAll(s, cfg, inp, bar, moves);
            s.log <= t.log && forall e | e in t.log[|s.log|..] :: !e.FailureWarned? && !e.AutoHalted?
  {
    if moves != [] {
      var before, m := DoAll(s, cfg, inp, bar, moves[..|moves| - 1]), moves[|moves| - 1];
      MovesNeverWarn(s, cfg, inp, bar, moves[..|moves| - 1]);
      if m.AskMove? {
        SubmitWrites(before, cfg, inp, m.channel, m.order, bar);
        var after := Do(before, cfg, inp, bar, m);
        AskNeverWarns(before, after, Key(cfg.symbol, bar.timestamp, m.channel), m.order, inp);
        StillNoWarning(s.log, before.log, after.log);
      }
    }
  }

  lemma AskNeverWarns(a: Loop, b: Loop, key: Key, order: Order, inp: Inputs)
    requires Wrote(a, b, key, order, inp)
    ensures a.log <= b.log && forall e | e in b.log[|a.log|..] :: !e.FailureWarned? && !e.AutoHalted?
  {
    var added := b.log[|a.log|..];
    assert b.log == a.log + added;
    assert |added| <= 3;
  }

  lemma StillNoWarning(a: seq<Event>, b: seq<Event>, c: seq<Event>)
    requires a <= b <= c
    requires forall e | e in b[|a|..] :: !e.FailureWarned? && !e.AutoHalted?
    requires forall e | e in c[|b|..] :: !e.FailureWarned? && !e.AutoHalted?
    ensures forall e | e in c[|a|..] :: !e.FailureWarned? && !e.AutoHalted?
  {
    assert c[|a|..] == b[|a|..] + c[|b|..];
  }

  lemma CycleWatchdog(s: Loop, t: Loop, cfg: Config, step: Step)
    requires Cycles(s, t, cfg, step)
    ensures WatchdogOnly(s, t, step.Bar().timestamp)
  {
    var p, events, moves :| CycleVia(s, t, cfg, step, p, events, moves);
    MovesNeverWarn(p, cfg, step.inputs, step.Bar(), moves);
    assert p.log == s.log + (WatchEvents(s.watch, step.Bar().timestamp) + events);
    assert t.log[|s.log|..] == (WatchEvents(s.watch, step.Bar().timestamp) + events) + t.log[|p.log|..];
  }

  /**
   In every run of a new process, recovered or not, a cycle halts if and only if the first failure since the last fill
   or halt is at least four hours old, and warns if and only if it is at least two hours old and no warning was given
   since.
   */
  lemma HaltsIffFourHours(start: Loop, cfg: Config, before: seq<Step>, step: Step)
    requires start.log == [] && start.watch == Watch(0, None, false)
    ensures var s := RunSteps(start, cfg, before);
            var t, first, now := After(s, cfg, step), FirstFailure(s.log), step.Bar().timestamp;
            && s.log <= t.log
            && ((exists e | e in t.log[|s.log|..] :: e.AutoHalted?) <==> first.Some? && now - first.value >= HALT_MS)
            && ((exists e | e in t.log[|s.log|..] :: e.FailureWarned?) <==>
                  first.Some? && now - first.value >= WARN_MS && !WarnedAlready(s.log))
  {
    var s := RunSteps(start, cfg, before);
    RunKeepsWatch(start, cfg, before);
    CycleCycles(s, cfg, step);
    CycleWatchdog(s, After(s, cfg, step), cfg, step);
    NotedIff(s, After(s, cfg, step), step.Bar().timestamp);
  }

  lemma NotedIff(s: Loop, t: Loop, now: int)
    requires WatchIsLog(s.log, s.watch.since, s.watch.warned) && WatchdogOnly(s, t, now)
    ensures var first := FirstFailure(s.log);
            && ((exists e | e in t.log[|s.log|..] :: e.AutoHalted?) <==> first.Some? && now - first.value >= HALT_MS)
            && ((exists e | e in t.log[|s.log|..] :: e.FailureWarned?) <==>
                  first.Some? && now - first.value >= WARN_MS && !WarnedAlready(s.log))
  {
    var w, events := s.watch, WatchEvents(s.watch, now);
    if w.since.Some? && now - w.since.value >= HALT_MS {
      assert events[|events| - 1] == AutoHalted(now, w.since.value);
      assert events[|events| - 1] in events;
    }
    if w.since.Some? && now - w.since.value >= WARN_MS && !w.warned {
      assert events[0] == FailureWarned(now);
      assert events[0] in events;
    }
  }
}
