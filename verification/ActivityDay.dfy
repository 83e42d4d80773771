/**
 The daily trade count and the minimal trade an activity rule forces, over whole runs: the count is exact, and
 after any fill the rule stays quiet for the rest of the day.
 */
module ActivityDay {
  import opened Market
  import opened Ledgers
  import opened Executors
  import opened Loops
  import opened LoopMoves
  import opened ModeSafety

  /** The forced trade: when it is placed, its size, and that it only trims what is held or opens from flat. */
  lemma ForcedTradeIsMinimal(s: Loop, cfg: Config, inp: Inputs, bar: Bar)
    ensures var order := ActivityOrder(s, cfg, inp, bar);
            var held := s.ledger.Exposure(bar.close);
            && (order.Some? ==>
                  && s.tradesToday == 0 && (bar.timestamp / HOUR_MS) % 24 >= cfg.activityHour
                  && 0.0 < order.value.sizeUsd <= cfg.activityUsd
                  && (if order.value.side.Sell? then order.value.sizeUsd <= held else held <= 0.0 && inp.guardrails))
            && (order.Some? <==>
                  && cfg.activityFloor && s.tradesToday == 0 && (bar.timestamp / HOUR_MS) % 24 >= cfg.activityHour
                  && inp.allowlisted && (held > 0.0 || inp.guardrails)
                  && (cfg.activityUsd > 0.0 || (0.0 < held <= cfg.activityUsd)))
  {
  }

  predicate Forced(e: Event) { e.Asked? && e.key.channel.Activity? }

  /** From `a` to `b` the log only grows, by nothing forced if `quiet`, and only fills are counted. */
  ghost predicate Counted(a: Loop, b: Loop, quiet: bool) {
    && CountsFills(a, b) && a.log <= b.log
    && (quiet ==> forall e | e in Since(a, b) :: !Forced(e))
  }

  lemma CountedTransitive(a: Loop, b: Loop, c: Loop, quiet: bool)
    requires Counted(a, b, quiet) && Counted(b, c, quiet)
    ensures Counted(a, c, quiet)
  {
    assert Since(a, c) == Since(a, b) + Since(b, c);
  }

  lemma SubmissionCounted(a: Loop, b: Loop, key: Key, order: Order, inp: Inputs)
    requires Wrote(a, b, key, order, inp) && CountsFills(a, b)
    ensures Counted(a, b, !key.channel.Activity?)
  {
  }

  lemma MoveCounted(s: Loop, cfg: Config, inp: Inputs, bar: Bar, m: Move)
    ensures Counted(s, Do(s, cfg, inp, bar, m), m.AskMove? ==> !m.channel.Activity?)
  {
    if m.AskMove? {
      SubmitCounts(s, cfg, inp, m.channel, m.order, bar);
      SubmitWrites(s, cfg, inp, m.channel, m.order, bar);
      SubmissionCounted(s, Do(s, cfg, inp, bar, m), Key(cfg.symbol, bar.timestamp, m.channel), m.order, inp);
    }
  }

  lemma {:induction false} MovesCounted(s: Loop, cfg: Config, inp: Inputs, bar: Bar, moves: seq<Move>)
    ensures Counted(s, DoAll(s, cfg, inp, bar, moves), NoActivity(moves))
  {
    if moves != [] {
      var init, m := moves[..|moves| - 1], moves[|moves| - 1];
      var before := DoAll(s, cfg, inp, bar, init);
      MovesCounted(s, cfg, inp, bar, init);
      MoveCounted(before, cfg, inp, bar, m);
      CountedTransitive(s, before, DoAll(s, cfg, inp, bar, moves), NoActivity(moves));
    }
  }

  function Day(step: Step): int { step.Bar().timestamp / DAY_MS }

  function CarriedOver(s: Loop, day: int): nat { if day == s.activityDay then s.tradesToday else 0 }

  /** One cycle adds its fills to the count of its day, and forces nothing on a day that already traded. */
  ghost predicate DayLaw(s: Loop, t: Loop, step: Step) {
    && s.log <= t.log && |s.fills| <= |t.fills|
    && t.activityDay == Day(step)
    && t.tradesToday == CarriedOver(s, Day(step)) + |t.fills| - |s.fills|
    && (CarriedOver(s, Day(step)) > 0 ==> forall e | e in Since(s, t) :: !Forced(e))
  }

  lemma CycleKeepsDayLaw(s: Loop, t: Loop, cfg: Config, step: Step)
    requires Cycles(s, t, cfg, step)
    ensures DayLaw(s, t, step)
  {
    var p, events, moves :| CycleVia(s, t, cfg, step, p, events, moves);
    MovesCounted(p, cfg, step.inputs, step.Bar(), moves);
    QuietPreparation(s, p, cfg, step, events);
    assert Since(s, t) == Since(s, p) + Since(p, t);
  }

  ghost predicate DayLaws(states: seq<Loop>, steps: seq<Step>) {
    && |states| == |steps| + 1
    && forall i | 0 <= i < |steps| :: DayLaw(states[i], states[i + 1], steps[i])
  }

  lemma RunKeepsDayLaws(s: Loop, cfg: Config, steps: seq<Step>)
    ensures DayLaws(Trace(s, cfg, steps), steps)
  {
    var states := Trace(s, cfg, steps);
    TraceFollows(s, cfg, steps);
    forall i | 0 <= i < |steps|
      ensures DayLaw(states[i], states[i + 1], steps[i])
    {
      CycleKeepsDayLaw(states[i], states[i + 1], cfg, steps[i]);
    }
  }

  /** Cycles i to j - 1 fall on one day. */
  predicate SameDay(steps: seq<Step>, i: nat, j: nat)
    requires i < j <= |steps|
  {
    forall k | i <= k < j :: Day(steps[k]) == Day(steps[i])
  }

  lemma {:induction false} CountSince(states: seq<Loop>, steps: seq<Step>, i: nat, j: nat)
    requires DayLaws(states, steps) && i < j <= |steps| && SameDay(steps, i, j)
    ensures states[j].activityDay == Day(steps[i]) && |states[i].fills| <= |states[j].fills|
    ensures states[j].tradesToday == CarriedOver(states[i], Day(steps[i])) + |states[j].fills| - |states[i].fills|
    decreases j - i
  {
    assert DayLaw(states[j - 1], states[j], steps[j - 1]);
    if i < j - 1 {
      CountSince(states, steps, i, j - 1);
    }
  }

  /** The daily count is exactly the number of fills since the day began, at every point of every run. */
  lemma TradesTodayCountsTheDay(s: Loop, cfg: Config, steps: seq<Step>, i: nat, j: nat)
    requires i < j <= |steps| && SameDay(steps, i, j)
    requires Trace(s, cfg, steps)[i].activityDay != Day(steps[i])
    ensures var states := Trace(s, cfg, steps);
            states[j].tradesToday == |states[j].fills| - |states[i].fills|
  {
    RunKeepsDayLaws(s, cfg, steps);
    CountSince(Trace(s, cfg, steps), steps, i, j);
  }

  /** Once any cycle has filled, no later cycle of that day asks for a forced trade. */
  lemma NoForcedTradeAfterAFill(s: Loop, cfg: Config, steps: seq<Step>, i: nat, j: nat)
    requires i < j < |steps| && SameDay(steps, i, j + 1)
    requires |Trace(s, cfg, steps)[i + 1].fills| > |Trace(s, cfg, steps)[i].fills|
    ensures var states := Trace(s, cfg, steps);
            && states[j].log <= states[j + 1].log
            && forall e | e in Since(states[j], states[j + 1]) :: !Forced(e)
  {
    RunKeepsDayLaws(s, cfg, steps);
    QuietAfterFill(Trace(s, cfg, steps), steps, i, j);
  }

  lemma QuietAfterFill(states: seq<Loop>, steps: seq<Step>, i: nat, j: nat)
    requires DayLaws(states, steps) && i < j < |steps| && SameDay(steps, i, j + 1)
    requires |states[i + 1].fills| > |states[i].fills|
    ensures states[j].log <= states[j + 1].log && forall e | e in Since(states[j], states[j + 1]) :: !Forced(e)
  {
    assert DayLaw(states[i], states[i + 1], steps[i]);
    if i + 1 < j {
      CountSince(states, steps, i + 1, j);
    }
    assert DayLaw(states[j], states[j + 1], steps[j]);
  }
}
