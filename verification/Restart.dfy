/**
 Going on after a crash: a fresh loop recovered from the event log against the loop that never stopped, fed
 the same inputs from then on.
 */
module Restart {
  import opened Market
  import opened Ledgers
  import opened Executors
  import opened Loops
  import opened LoopMoves
  import opened Recovery
  import opened Lives
  import opened ModeSafety
  import opened ActivityDay
  import opened KeyTables

  // ---- two loops that will do the same ----

  /** The tables agree on which keys they remember, from the bars of time `cut` on. */
  ghost predicate SeenAlike(a: Seen, b: Seen, cut: int) {
    forall k: Key | k.timestamp >= cut :: Remembers(a, k) <==> Remembers(b, k)
  }

  /** The fills and equity points each loop had when they were first compared. */
  datatype From = From(fillsA: seq<Fill>, fillsB: seq<Fill>, curveA: seq<real>, curveB: seq<real>)

  /** The sequences grew by the same elements. */
  ghost predicate GrewAlike<T>(fromA: seq<T>, a: seq<T>, fromB: seq<T>, b: seq<T>) {
    fromA <= a && fromB <= b && a[|fromA|..] == b[|fromB|..]
  }

  lemma GrowAlike<T>(fromA: seq<T>, a: seq<T>, fromB: seq<T>, b: seq<T>, x: T)
    requires GrewAlike(fromA, a, fromB, b)
    ensures GrewAlike(fromA, a + [x], fromB, b + [x])
  {
    assert (a + [x])[|fromA|..] == a[|fromA|..] + [x];
    assert (b + [x])[|fromB|..] == b[|fromB|..] + [x];
  }

  /** The same books, built by the same fills and equity points since then. */
  ghost predicate SameBooksSince(a: Loop, b: Loop, from: From) {
    && Accounts(a.ledger) == Accounts(b.ledger)
    && GrewAlike(from.fillsA, a.fills, from.fillsB, b.fills)
    && GrewAlike(from.curveA, a.curve, from.curveB, b.curve)
  }

  ghost predicate Twins(a: Loop, b: Loop, cut: int, from: From) {
    SameBooksSince(a, b, from) && a.mode == b.mode && SeenAlike(a.seen, b.seen, cut)
  }

  /** Nothing the activity rule looks at differs. */
  ghost predicate DayAlike(a: Loop, b: Loop, cfg: Config) {
    cfg.activityFloor ==> a.tradesToday == b.tradesToday && a.activityDay == b.activityDay
  }

  ghost predicate Abreast(a: Loop, b: Loop, cfg: Config, cut: int, from: From) {
    Twins(a, b, cut, from) && DayAlike(a, b, cfg)
  }

  lemma MarkTwins(a: Loop, b: Loop, cfg: Config, cut: int, from: From, price: real)
    requires Abreast(a, b, cfg, cut, from)
    ensures Abreast(MarkLoop(a, price), MarkLoop(b, price), cfg, cut, from)
  {
    MarkRaisesPeak(a.ledger, price);
    MarkRaisesPeak(b.ledger, price);
  }

  /** The part of a loop a filled order changes, alike in both. */
  lemma FillTwins(a: Loop, b: Loop, cfg: Config, cut: int, from: From, key: Key, report: Report, fill: Fill, bar: Bar,
                  inp: Inputs)
    requires Abreast(a, b, cfg, cut, from)
    ensures Abreast(HandleFill(a, key, report, fill, bar, inp).state, HandleFill(b, key, report, fill, bar, inp).state,
                    cfg, cut, from)
  {
    FillWrites(a, key, report, fill, bar, inp);
    FillWrites(b, key, report, fill, bar, inp);
    FillDay(a, key, report, fill, bar, inp);
    FillDay(b, key, report, fill, bar, inp);
    AccountsIgnoreMarks(a.ledger, b.ledger, fill);
    GrowAlike(from.fillsA, a.fills, from.fillsB, b.fills, fill);
  }

  lemma FillDay(s: Loop, key: Key, report: Report, fill: Fill, bar: Bar, inp: Inputs)
    ensures var b := HandleFill(s, key, report, fill, bar, inp).state;
            b.tradesToday == s.tradesToday + 1 && b.activityDay == s.activityDay && b.blockEntry == s.blockEntry
  {
  }

  lemma HandleTwins(a: Loop, b: Loop, cfg: Config, cut: int, from: From, key: Key, report: Report,
                    bar: Bar, inp: Inputs)
    requires Abreast(a, b, cfg, cut, from)
    ensures Abreast(HandleExecution(a, key, report, bar, inp).state, HandleExecution(b, key, report, bar, inp).state,
                    cfg, cut, from)
  {
    if report.IsFill() {
      FillTwins(a, b, cfg, cut, from, key, report, report.fill.value, bar, inp);
    } else {
      NoFillOnlyNotes(a, key, report, bar, inp);
      NoFillOnlyNotes(b, key, report, bar, inp);
    }
  }

  /** One call leaves the tables agreed: both answer it, or both pass it on. */
  lemma SeenStayAlike(a: Seen, b: Seen, cut: int, key: Key, order: Order, reply: Reply)
    requires SeenAlike(a, b, cut) && key.timestamp >= cut
    ensures SeenAlike(ExecuteOnce(a, key, order, reply).seen, ExecuteOnce(b, key, order, reply).seen, cut)
  {
    assert Remembers(a, key) <==> Remembers(b, key);
  }

  lemma SubmitTwins(a: Loop, b: Loop, cfg: Config, cut: int, from: From, inp: Inputs, channel: Channel, order: Order,
                    bar: Bar)
    requires Abreast(a, b, cfg, cut, from) && bar.timestamp >= cut
    ensures var t, u := Submit(a, cfg, inp, channel, order, bar), Submit(b, cfg, inp, channel, order, bar);
            Abreast(t.state, u.state, cfg, cut, from) && t.raised == u.raised
  {
    var key := Key(cfg.symbol, bar.timestamp, channel);
    assert Remembers(a.seen, key) <==> Remembers(b.seen, key);
    if Remembers(a.seen, key) {
      KnownKeySubmits(a, cfg, inp, channel, order, bar);
      KnownKeySubmits(b, cfg, inp, channel, order, bar);
    } else {
      NewKeyTwins(a, b, cfg, cut, from, inp, channel, order, bar);
    }
  }

  lemma NewKeyTwins(a: Loop, b: Loop, cfg: Config, cut: int, from: From, inp: Inputs, channel: Channel, order: Order,
                    bar: Bar)
    requires Abreast(a, b, cfg, cut, from) && bar.timestamp >= cut
    requires !Remembers(a.seen, Key(cfg.symbol, bar.timestamp, channel))
    requires !Remembers(b.seen, Key(cfg.symbol, bar.timestamp, channel))
    ensures var t, u := Submit(a, cfg, inp, channel, order, bar), Submit(b, cfg, inp, channel, order, bar);
            Abreast(t.state, u.state, cfg, cut, from) && t.raised == u.raised
  {
    var key := Key(cfg.symbol, bar.timestamp, channel);
    var reply := inp.venue(key, order);
    NewKeySubmits(a, cfg, inp, channel, order, bar);
    NewKeySubmits(b, cfg, inp, channel, order, bar);
    SeenStayAlike(a.seen, b.seen, cut, key, order, reply);
    if reply.Answer? {
      HandleTwins(Note(a, Asked(key)).(seen := ExecuteOnce(a.seen, key, order, reply).seen),
                  Note(b, Asked(key)).(seen := ExecuteOnce(b.seen, key, order, reply).seen),
                  cfg, cut, from, key, reply.report, bar, inp);
    }
  }

  lemma CloseTwins(a: Loop, b: Loop, cfg: Config, cut: int, from: From, inp: Inputs, bar: Bar, idA: Option<nat>,
                   idB: Option<nat>)
    requires Abreast(a, b, cfg, cut, from)
    ensures Abreast(Finalise(a, cfg, inp, bar, idA), Finalise(b, cfg, inp, bar, idB), cfg, cut, from)
  {
    MarkTwins(a, b, cfg, cut, from, bar.close);
    GrowAlike(from.curveA, a.curve, from.curveB, b.curve, a.ledger.Equity(bar.close));
  }

  lemma ForcedTwins(a: Loop, b: Loop, cfg: Config, cut: int, from: From, inp: Inputs, bar: Bar)
    requires Abreast(a, b, cfg, cut, from) && bar.timestamp >= cut
    ensures var t, u := ActivityTrade(a, cfg, inp, bar), ActivityTrade(b, cfg, inp, bar);
            Abreast(t.state, u.state, cfg, cut, from) && t.raised == u.raised
  {
    var order := ActivityOrder(a, cfg, inp, bar);
    assert order == ActivityOrder(b, cfg, inp, bar);
    if order.Some? {
      MarkTwins(a, b, cfg, cut, from, bar.close);
      if order.value.side.Buy? {
        SubmitTwins(MarkLoop(a, bar.close), MarkLoop(b, bar.close), cfg, cut, from, inp, Activity, order.value, bar);
      } else {
        SubmitTwins(a, b, cfg, cut, from, inp, Activity, order.value, bar);
      }
    }
  }

  ghost predicate CycledAlike(c: Cycled, d: Cycled, cfg: Config, cut: int, from: From) {
    Abreast(c.state, d.state, cfg, cut, from) && c.completed == d.completed
  }

  lemma ActivityTwins(a: Loop, b: Loop, cfg: Config, cut: int, from: From, inp: Inputs, bar: Bar, idA: Option<nat>,
                      idB: Option<nat>)
    requires Abreast(a, b, cfg, cut, from) && bar.timestamp >= cut
    ensures CycledAlike(ActivityAndClose(a, cfg, inp, bar, idA), ActivityAndClose(b, cfg, inp, bar, idB),
                        cfg, cut, from)
  {
    var t, u := ActivityTrade(a, cfg, inp, bar), ActivityTrade(b, cfg, inp, bar);
    ForcedTwins(a, b, cfg, cut, from, inp, bar);
    if !t.raised {
      MarkTwins(t.state, u.state, cfg, cut, from, bar.close);
      if inp.watching {
        CloseTwins(MarkLoop(t.state, bar.close), MarkLoop(u.state, bar.close), cfg, cut, from, inp, bar, idA, idB);
      } else {
        CloseTwins(t.state, u.state, cfg, cut, from, inp, bar, idA, idB);
      }
    }
  }

  lemma MainTwins(a: Loop, b: Loop, cfg: Config, cut: int, from: From, inp: Inputs, history: seq<Bar>)
    requires history != [] && history[|history| - 1].timestamp >= cut
    requires Abreast(a, b, cfg, cut, from) && a.blockEntry == b.blockEntry
    ensures CycledAlike(MainPath(a, cfg, inp, history), MainPath(b, cfg, inp, history), cfg, cut, from)
  {
    var bar, order := history[|history| - 1], GatedOrder(a, cfg, inp, history);
    assert order == GatedOrder(b, cfg, inp, history);
    if order.None? {
      ActivityTwins(a, b, cfg, cut, from, inp, bar, None, None);
    } else {
      var t, u := Submit(a, cfg, inp, Base, order.value, bar), Submit(b, cfg, inp, Base, order.value, bar);
      SubmitTwins(a, b, cfg, cut, from, inp, Base, order.value, bar);
      if !t.raised {
        ActivityTwins(t.state, u.state, cfg, cut, from, inp, bar, t.tradeId, u.tradeId);
      }
    }
  }

  lemma SubmitKeepsGate(s: Loop, cfg: Config, inp: Inputs, channel: Channel, order: Order, bar: Bar)
    ensures Submit(s, cfg, inp, channel, order, bar).raised ==>
              Submit(s, cfg, inp, channel, order, bar).state.blockEntry == s.blockEntry
  {
  }

  lemma KolTwins(a: Loop, b: Loop, cfg: Config, cut: int, from: From, inp: Inputs, history: seq<Bar>)
    requires history != [] && history[|history| - 1].timestamp >= cut
    requires Abreast(a, b, cfg, cut, from) && a.blockEntry == b.blockEntry
    ensures CycledAlike(KolPath(a, cfg, inp, history), KolPath(b, cfg, inp, history), cfg, cut, from)
  {
    var bar := history[|history| - 1];
    var c, d := MarkLoop(a, bar.close), MarkLoop(b, bar.close);
    MarkTwins(a, b, cfg, cut, from, bar.close);
    if inp.kolOrder.None? {
      if inp.kolRefused {
        MainTwins(c, d, cfg, cut, from, inp, history);
      } else {
        MainTwins(a, b, cfg, cut, from, inp, history);
      }
    } else {
      var order := inp.kolOrder.value;
      var t, u := Submit(c, cfg, inp, Kol, order, bar), Submit(d, cfg, inp, Kol, order, bar);
      SubmitTwins(c, d, cfg, cut, from, inp, Kol, order, bar);
      if t.raised {
        SubmitKeepsGate(c, cfg, inp, Kol, order, bar);
        SubmitKeepsGate(d, cfg, inp, Kol, order, bar);
        MainTwins(t.state, u.state, cfg, cut, from, inp, history);
      } else {
        CloseTwins(t.state, u.state, cfg, cut, from, inp, bar, t.tradeId, u.tradeId);
      }
    }
  }

  lemma JudgedTwins(a: Loop, b: Loop, cfg: Config, cut: int, from: From, inp: Inputs, history: seq<Bar>)
    requires history != [] && history[|history| - 1].timestamp >= cut
    requires Abreast(a, b, cfg, cut, from) && a.blockEntry == b.blockEntry
    ensures CycledAlike(Judged(a, cfg, inp, history), Judged(b, cfg, inp, history), cfg, cut, from)
  {
    var bar := history[|history| - 1];
    var exposure := a.ledger.Exposure(bar.close);
    assert exposure == b.ledger.Exposure(bar.close);
    if inp.autopilot.Flatten? && exposure > EXPOSURE_EPSILON {
      var order := Order(Sell, exposure, cfg.symbol, bar.timestamp);
      var t, u := Submit(a, cfg, inp, Autopilot, order, bar), Submit(b, cfg, inp, Autopilot, order, bar);
      SubmitTwins(a, b, cfg, cut, from, inp, Autopilot, order, bar);
      if !t.raised {
        CloseTwins(t.state, u.state, cfg, cut, from, inp, bar, t.tradeId, u.tradeId);
      }
    } else if inp.autopilot.HaltDay? {
      CloseTwins(a, b, cfg, cut, from, inp, bar, None, None);
    } else {
      KolTwins(a, b, cfg, cut, from, inp, history);
    }
  }

  lemma AutopilotTwins(a: Loop, b: Loop, cfg: Config, cut: int, from: From, inp: Inputs, history: seq<Bar>)
    requires history != [] && history[|history| - 1].timestamp >= cut && Abreast(a, b, cfg, cut, from)
    ensures CycledAlike(AutopilotPath(a, cfg, inp, history), AutopilotPath(b, cfg, inp, history), cfg, cut, from)
  {
    var bar := history[|history| - 1];
    if inp.autopilot.Disabled? {
      KolTwins(a.(blockEntry := false), b.(blockEntry := false), cfg, cut, from, inp, history);
    } else {
      var gate := inp.autopilot.BlockEntry?;
      MarkTwins(a, b, cfg, cut, from, bar.close);
      JudgedTwins(MarkLoop(a, bar.close).(blockEntry := gate), MarkLoop(b, bar.close).(blockEntry := gate), cfg, cut,
                  from, inp, history);
    }
  }

  // ---- the first preparation ----

  /** Nothing is remembered from `cut` on. */
  ghost predicate Forgetful(seen: Seen, cut: int) { forall k: Key | k.timestamp >= cut :: !Remembers(seen, k) }

  /** Two loops with one position come out of their next preparation in one mode. */
  predicate ModesMeet(a: Loop, b: Loop, cfg: Config, step: Step) { a.mode == b.mode || CanSwitch(a, cfg, step) }

  /** They come out of it with tables that agree from `cut` on. */
  ghost predicate TablesMeet(a: Loop, b: Loop, cfg: Config, step: Step, cut: int) {
    if Switches(a, cfg, step) then Switches(b, cfg, step) || Forgetful(b.seen, cut)
    else if Switches(b, cfg, step) then Forgetful(a.seen, cut)
    else SeenAlike(a.seen, b.seen, cut)
  }

  /**
   A switch empties the table of the loop that makes it. After the first preparation two loops with one position are
   in one mode if and only if they were or the toggle can be followed now; and their tables agree if and only if both
   switch, or one does and the other remembers nothing, or neither does and they agreed before.
   */
  lemma FirstPreparation(a: Loop, b: Loop, cfg: Config, step: Step, cut: int)
    requires a.ledger.units == b.ledger.units
    ensures var p, q := Prepare(a, cfg, step.inputs, step.Bar()), Prepare(b, cfg, step.inputs, step.Bar());
            && (p.mode == q.mode <==> ModesMeet(a, b, cfg, step))
            && (SeenAlike(p.seen, q.seen, cut) <==> TablesMeet(a, b, cfg, step, cut))
  {
    PreparedMode(a, cfg, step);
    PreparedMode(b, cfg, step);
    assert a.ledger.Exposure(step.Bar().close) == b.ledger.Exposure(step.Bar().close);
    SeenAgainstNone(a.seen, cut);
    SeenAgainstNone(b.seen, cut);
  }

  lemma SeenAgainstNone(seen: Seen, cut: int)
    ensures SeenAlike(seen, map[], cut) <==> Forgetful(seen, cut)
    ensures SeenAlike(map[], seen, cut) <==> Forgetful(seen, cut)
  {
    assert forall k: Key :: !Remembers(map[], k);
  }

  /** The rest of a cycle keeps the mode. */
  lemma CycleKeepsPreparedMode(s: Loop, cfg: Config, step: Step)
    ensures After(s, cfg, step).mode == if Switches(s, cfg, step) then step.inputs.desired.value else s.mode
  {
    PreparedMode(s, cfg, step);
    var moves := CycleMoves(s, cfg, step.inputs, step.history);
    MovesOnlyTrade(Prepare(s, cfg, step.inputs, step.Bar()), cfg, step.inputs, step.Bar(), moves);
  }

  /** Nobody touches the toggle: the launch mode stays. */
  lemma {:induction false} UntoggledKeepsMode(s: Loop, cfg: Config, steps: seq<Step>)
    requires forall step | step in steps :: step.inputs.desired.None?
    ensures RunSteps(s, cfg, steps).mode == s.mode
    decreases |steps|
  {
    if steps != [] {
      var init, last := steps[..|steps| - 1], steps[|steps| - 1];
      UntoggledKeepsMode(s, cfg, init);
      CycleKeepsPreparedMode(RunSteps(s, cfg, init), cfg, last);
    }
  }

  lemma PrepareTwins(a: Loop, b: Loop, cfg: Config, cut: int, from: From, step: Step)
    requires SameBooksSince(a, b, from) && ModesMeet(a, b, cfg, step) && TablesMeet(a, b, cfg, step, cut)
    requires cfg.activityFloor ==> CarriedOver(a, Day(step)) == CarriedOver(b, Day(step))
    ensures Abreast(Prepare(a, cfg, step.inputs, step.Bar()), Prepare(b, cfg, step.inputs, step.Bar()), cfg, cut, from)
  {
    FirstPreparation(a, b, cfg, step, cut);
    PreparedMode(a, cfg, step);
    PreparedMode(b, cfg, step);
    PreparedDay(a, cfg, step);
    PreparedDay(b, cfg, step);
  }

  lemma PreparedDay(s: Loop, cfg: Config, step: Step)
    ensures var p := Prepare(s, cfg, step.inputs, step.Bar());
            p.activityDay == Day(step) && p.tradesToday == CarriedOver(s, Day(step))
  {
    var events := PrepareWrites(s, cfg, step.inputs, step.Bar());
  }

  /** Twins switch together or not at all. */
  lemma TwinsMeet(a: Loop, b: Loop, cfg: Config, cut: int, from: From, step: Step)
    requires Twins(a, b, cut, from)
    ensures ModesMeet(a, b, cfg, step) && TablesMeet(a, b, cfg, step, cut)
  {
    assert a.ledger.units == b.ledger.units;
  }

  lemma PreparedTwins(p: Loop, q: Loop, c: Cycled, d: Cycled, cfg: Config, cut: int, from: From, step: Step)
    requires Abreast(p, q, cfg, cut, from) && step.Bar().timestamp >= cut
    requires if step.inputs.floor.FloorHit? || step.inputs.halted then
               && c == Cycled(Finalise(p, cfg, step.inputs, step.Bar(), None), true)
               && d == Cycled(Finalise(q, cfg, step.inputs, step.Bar(), None), true)
             else
               && c == AutopilotPath(p, cfg, step.inputs, step.history)
               && d == AutopilotPath(q, cfg, step.inputs, step.history)
    ensures CycledAlike(c, d, cfg, cut, from)
  {
    if step.inputs.floor.FloorHit? || step.inputs.halted {
      CloseTwins(p, q, cfg, cut, from, step.inputs, step.Bar(), None, None);
    } else {
      AutopilotTwins(p, q, cfg, cut, from, step.inputs, step.history);
    }
  }

  /**
   Two loops with the same books that meet in their preparation do the same in the rest of the cycle, whatever their
   modes and tables before, their peaks, days, streaks and pasts.
   */
  lemma CycleTwins(a: Loop, b: Loop, cfg: Config, cut: int, from: From, step: Step)
    requires SameBooksSince(a, b, from) && ModesMeet(a, b, cfg, step) && TablesMeet(a, b, cfg, step, cut)
    requires step.Bar().timestamp >= cut
    requires cfg.activityFloor ==> CarriedOver(a, Day(step)) == CarriedOver(b, Day(step))
    ensures CycledAlike(Cycle(a, cfg, step.inputs, step.history), Cycle(b, cfg, step.inputs, step.history),
                        cfg, cut, from)
  {
    var inp, bar := step.inputs, step.Bar();
    PrepareTwins(a, b, cfg, cut, from, step);
    PreparedTwins(Prepare(a, cfg, inp, bar), Prepare(b, cfg, inp, bar), Cycle(a, cfg, inp, step.history),
                  Cycle(b, cfg, inp, step.history), cfg, cut, from, step);
  }

  lemma {:induction false} RunTwins(a: Loop, b: Loop, cfg: Config, cut: int, from: From, steps: seq<Step>)
    requires SameBooksSince(a, b, from) && forall step | step in steps :: step.Bar().timestamp >= cut
    requires steps != [] ==> ModesMeet(a, b, cfg, steps[0]) && TablesMeet(a, b, cfg, steps[0], cut)
    requires cfg.activityFloor && steps != [] ==> CarriedOver(a, Day(steps[0])) == CarriedOver(b, Day(steps[0]))
    ensures SameBooksSince(RunSteps(a, cfg, steps), RunSteps(b, cfg, steps), from)
    ensures steps != [] ==> Abreast(RunSteps(a, cfg, steps), RunSteps(b, cfg, steps), cfg, cut, from)
    decreases |steps|
  {
    if steps != [] {
      var init, last := steps[..|steps| - 1], steps[|steps| - 1];
      RunTwins(a, b, cfg, cut, from, init);
      if init != [] {
        TwinsMeet(RunSteps(a, cfg, init), RunSteps(b, cfg, init), cfg, cut, from, last);
      }
      CycleTwins(RunSteps(a, cfg, init), RunSteps(b, cfg, init), cfg, cut, from, last);
    }
  }

  // ---- one set of books after a crash ----

  lemma StartedBooks(s: Loop, initial: real, boot: Mode, at: int)
    requires Mirrored(s, initial, at) && |s.store.trades| <= RECENT
    ensures SameBooksSince(s, Started(s.store, initial, boot), From(s.fills, [], s.curve, []))
  {
    MirrorRestores(s, initial, at);
  }

  /** About bars later than every key and row, neither table has anything to say. */
  lemma LaterTablesMeet(s: Loop, initial: real, boot: Mode, cfg: Config, step: Step, now: int)
    requires KeysPast(s, now)
    ensures TablesMeet(s, Started(s.store, initial, boot), cfg, step, now + 1)
  {
    RecoveredKeysPast(s.store, now);
    assert Forgetful(s.seen, now + 1) && Forgetful(RecoveredSeen(s.store, map[]), now + 1);
  }

  /** From the state `s` a process crashed in: what the loop that goes on and the one launched in `boot` do alike. */
  ghost predicate Resumes(s: Loop, initial: real, boot: Mode, cfg: Config, after: seq<Step>) {
    var live, resumed := RunSteps(s, cfg, after), RunSteps(Started(s.store, initial, boot), cfg, after);
    && live.fills == s.fills + resumed.fills && live.curve == s.curve + resumed.curve
    && Accounts(live.ledger) == Accounts(resumed.ledger) && (after != [] ==> live.mode == resumed.mode)
  }

  /**
   However often the agent crashed before, if every fill reached the log, with at most 500 trades: crash, recover, and
   go on. Fed the same bars and inputs from then on, the recovered loop fills the same orders, ends in the same mode
   with the same cash, units, average entry, costs, realised profit and loss streak, and draws the same equity curve
   as the loop that never stopped. Three things are asked: the activity rule is off or nothing had traded yet on the
   day it comes back; it is launched in the mode the crashed loop had, or the toggle can be followed in its first
   cycle; and, if it comes back on the very bar it crashed on, the tables meet about that bar.
   */
  lemma CrashedRunResumes(initial: real, cfg: Config, processes: seq<Process>, boot: Mode, after: seq<Step>, now: int)
    requires ReliableLife(initial, cfg, processes) && UpTo(AllSteps(processes), now)
    requires |Life(initial, cfg, processes).store.trades| <= RECENT
    requires forall step | step in after :: step.Bar().timestamp >= now
    requires after != [] ==>
               var crashed := Life(initial, cfg, processes);
               var back := Started(crashed.store, initial, boot);
               && ModesMeet(crashed, back, cfg, after[0])
               && ((exists step | step in after :: step.Bar().timestamp == now) ==>
                     TablesMeet(crashed, back, cfg, after[0], now))
               && (cfg.activityFloor ==> CarriedOver(crashed, Day(after[0])) == 0)
    ensures Resumes(Life(initial, cfg, processes), initial, boot, cfg, after)
  {
    var crashed := Life(initial, cfg, processes);
    LifeIsMirrored(initial, cfg, processes, now);
    LifeKeysPast(initial, cfg, processes, now);
    if after == [] {
      StateResumes(crashed, initial, boot, cfg, after, now, now);
    } else {
      LaterTablesMeet(crashed, initial, boot, cfg, after[0], now);
      var cut := if exists step | step in after :: step.Bar().timestamp == now then now else now + 1;
      StateResumes(crashed, initial, boot, cfg, after, now, cut);
    }
  }

  lemma StateResumes(s: Loop, initial: real, boot: Mode, cfg: Config, after: seq<Step>, at: int, cut: int)
    requires Mirrored(s, initial, at) && |s.store.trades| <= RECENT
    requires forall step | step in after :: step.Bar().timestamp >= cut
    requires after != [] ==>
               var back := Started(s.store, initial, boot);
               && ModesMeet(s, back, cfg, after[0]) && TablesMeet(s, back, cfg, after[0], cut)
               && (cfg.activityFloor ==> CarriedOver(s, Day(after[0])) == 0)
    ensures Resumes(s, initial, boot, cfg, after)
  {
    var from, back := From(s.fills, [], s.curve, []), Started(s.store, initial, boot);
    StartedBooks(s, initial, boot, at);
    RunTwins(s, back, cfg, cut, from, after);
    BooksFromScratch(s, RunSteps(s, cfg, after), RunSteps(back, cfg, after));
  }

  lemma BooksFromScratch(s: Loop, a: Loop, b: Loop)
    requires SameBooksSince(a, b, From(s.fills, [], s.curve, []))
    ensures a.fills == s.fills + b.fills && a.curve == s.curve + b.curve
  {
  }

  // ---- the mode across a crash ----

  /**
   As long as its cycles start exposed, the recovered loop trades in its launch mode: the position the crashed loop
   held in its own mode is traded under one mode if and only if the two are the same or nothing fills.
   */
  lemma PositionModeAcrossCrash(s: Loop, initial: real, boot: Mode, cfg: Config, after: seq<Step>, b: nat)
    requires b <= |after|
    requires forall i | 0 <= i < b :: Exposed(Trace(Started(s.store, initial, boot), cfg, after)[i], after[i])
    ensures var end := Trace(Started(s.store, initial, boot), cfg, after)[b];
            && end.mode == boot && (forall e | e in end.log && e.Filled? :: e.mode == boot)
            && ((forall e | e in end.log && e.Filled? :: e.mode == s.mode)
                <==> boot == s.mode || forall e | e in end.log :: !e.Filled?)
  {
    var states := Trace(Started(s.store, initial, boot), cfg, after);
    RunIsLawful(states[0], cfg, after);
    ExposedStretch(states, cfg, after, b, boot);
  }

  /**
   A position opened in cycle a and still held at the crash: all its fills until then carry the crashed loop's mode,
   and those of the recovered loop, while it stays exposed, do too if and only if it was launched in that mode or
   fills nothing.
   */
  lemma OneModeAcrossCrash(s: Loop, initial: real, boot: Mode, cfg: Config, before: seq<Step>, a: nat, after: seq<Step>,
                           b: nat)
    requires a < |before| && b <= |after|
    requires forall i | a < i < |before| :: Exposed(Trace(s, cfg, before)[i], before[i])
    requires var back := Started(RunSteps(s, cfg, before).store, initial, boot);
             forall i | 0 <= i < b :: Exposed(Trace(back, cfg, after)[i], after[i])
    ensures var start, crashed := Trace(s, cfg, before)[a], RunSteps(s, cfg, before);
            var end := Trace(Started(crashed.store, initial, boot), cfg, after)[b];
            && start.log <= crashed.log
            && (forall e | e in Since(start, crashed) && e.Filled? :: e.mode == crashed.mode)
            && ((forall e | e in end.log && e.Filled? :: e.mode == crashed.mode)
                <==> boot == crashed.mode || forall e | e in end.log :: !e.Filled?)
  {
    TraceEnds(s, cfg, before);
    PositionTradesUnderOneMode(s, cfg, before, a, |before|);
    PositionModeAcrossCrash(RunSteps(s, cfg, before), initial, boot, cfg, after, b);
  }

  lemma {:induction false} ExposedStretch(states: seq<Loop>, cfg: Config, steps: seq<Step>, b: nat, boot: Mode)
    requires Lawful(states, cfg, steps) && b <= |steps| && states[0].log == [] && states[0].mode == boot
    requires forall i | 0 <= i < b :: Exposed(states[i], steps[i])
    ensures states[b].mode == boot && forall e | e in states[b].log && e.Filled? :: e.mode == boot
  {
    if b > 0 {
      ExposedStretch(states, cfg, steps, b - 1, boot);
      assert ModeLaw(states[b - 1], states[b], cfg, steps[b - 1]);
      assert states[b].log == states[b - 1].log + Since(states[b - 1], states[b]);
    }
  }
}
