/**
 Coming back on the very bar of the crash. The live loop remembers every key it filled or simulated; recovery
 remembers what the decision rows say. Exactly when the two agree about the last bar, and when a switch in the first
 cycle after recovery lets them meet all the same.
 */
module OwnBar {
  import opened Market
  import opened Executors
  import opened Loops
  import opened LoopMoves
  import opened LoopOnce
  import opened KeyTables
  import opened Ordering
  import opened Recovery
  import opened ActivityDay
  import opened Lives
  import opened ModeSafety
  import opened Restart

  function OwnKey(cfg: Config, bar: Bar, channel: Channel): Key { Key(cfg.symbol, bar.timestamp, channel) }

  /** Nothing was filled or simulated under the bar's keys yet. */
  ghost predicate Untouched(s: Loop, cfg: Config, bar: Bar) {
    forall channel :: !Remembers(s.seen, OwnKey(cfg, bar, channel))
  }

  /** Something was filled that a decision row names: everything but the activity rule's trade. */
  predicate Named(s: Loop, cfg: Config, bar: Bar) {
    || HoldsFill(s.seen, OwnKey(cfg, bar, Base))
    || HoldsFill(s.seen, OwnKey(cfg, bar, Kol))
    || HoldsFill(s.seen, OwnKey(cfg, bar, Autopilot))
  }

  /** The table only gains keys of this bar, and fills in it only by fills booked. */
  ghost predicate GainedOwnKeys(s: Loop, t: Loop, cfg: Config, bar: Bar) {
    && |s.fills| <= |t.fills|
    && (forall k: Key | Remembers(s.seen, k) :: Remembers(t.seen, k))
    && (forall k: Key | HoldsFill(s.seen, k) :: HoldsFill(t.seen, k))
    && (forall k: Key | Remembers(t.seen, k) && !Remembers(s.seen, k) ::
          k.symbol == cfg.symbol && k.timestamp == bar.timestamp)
    && forall k: Key | HoldsFill(t.seen, k) && !HoldsFill(s.seen, k) :: |s.fills| < |t.fills|
  }

  /** Nothing but this key changed. */
  ghost predicate OnlyKey(s: Loop, t: Loop, key: Key) {
    forall k: Key | k != key ::
      && (Remembers(t.seen, k) <==> Remembers(s.seen, k)) && (HoldsFill(t.seen, k) <==> HoldsFill(s.seen, k))
  }

  /** What one submission under a new key does to the table, and what its trade id says. */
  lemma SubmitGains(s: Loop, cfg: Config, inp: Inputs, channel: Channel, order: Order, bar: Bar)
    requires ProperVenue(inp) && !Remembers(s.seen, OwnKey(cfg, bar, channel))
    ensures var t, key := Submit(s, cfg, inp, channel, order, bar), OwnKey(cfg, bar, channel);
            && GainedOwnKeys(s, t.state, cfg, bar) && t.state.store.decisions == s.store.decisions
            && OnlyKey(s, t.state, key)
            && (t.tradeId.Some? <==> inp.recorded && HoldsFill(t.state.seen, key))
            && (t.raised ==> !Remembers(t.state.seen, key))
  {
    var key := OwnKey(cfg, bar, channel);
    var reply := inp.venue(key, order);
    NewKeySubmits(s, cfg, inp, channel, order, bar);
    assert reply.Proper();
    if reply.Answer? {
      var asked := Note(s, Asked(key)).(seen := ExecuteOnce(s.seen, key, order, reply).seen);
      AnswerGains(s, asked, key, reply.report, bar, inp);
    }
  }

  /** The same, once the venue has answered. */
  lemma AnswerGains(s: Loop, asked: Loop, key: Key, report: Report, bar: Bar, inp: Inputs)
    requires !Remembers(s.seen, key) && Answer(report).Proper()
    requires asked == Note(s, Asked(key)).(seen := Remember(s.seen, key, report))
    ensures var h := HandleExecution(asked, key, report, bar, inp);
            && h.state.seen == asked.seen && h.state.store.decisions == s.store.decisions
            && |s.fills| <= |h.state.fills| && (HoldsFill(asked.seen, key) ==> |s.fills| < |h.state.fills|)
            && (h.tradeId.Some? <==> inp.recorded && HoldsFill(asked.seen, key))
  {
    assert !HoldsFill(s.seen, key);
    if report.IsFill() {
      FillWrites(asked, key, report, report.fill.value, bar, inp);
    } else {
      NoFillOnlyNotes(asked, key, report, bar, inp);
    }
  }

  /** A finished cycle records its decision row, and the row names a trade iff a nameable fill was made. */
  ghost predicate ClosesWith(s: Loop, c: Cycled, cfg: Config, inp: Inputs, bar: Bar, id: Option<nat>) {
    var row := DecisionRow(OwnKey(cfg, bar, Base), bar.timestamp, id);
    && GainedOwnKeys(s, c.state, cfg, bar)
    && c.state.store.decisions
       == (if c.completed && inp.recorded then RecordDecision(s.store.decisions, row) else s.store.decisions)
    && (c.completed && inp.recorded ==> (id.Some? <==> Named(c.state, cfg, bar)))
  }

  lemma ActivityGains(s: Loop, cfg: Config, inp: Inputs, bar: Bar)
    requires ProperVenue(inp) && !Remembers(s.seen, OwnKey(cfg, bar, Activity))
    ensures var u := ActivityTrade(s, cfg, inp, bar).state;
            && GainedOwnKeys(s, u, cfg, bar) && u.store.decisions == s.store.decisions
            && (Named(u, cfg, bar) <==> Named(s, cfg, bar))
  {
    var order := ActivityOrder(s, cfg, inp, bar);
    if order.Some? {
      var asking := if order.value.side.Buy? then MarkLoop(s, bar.close) else s;
      SubmitGains(asking, cfg, inp, Activity, order.value, bar);
    }
  }

  lemma ActivityCloses(s: Loop, cfg: Config, inp: Inputs, bar: Bar, id: Option<nat>)
    requires ProperVenue(inp) && !Remembers(s.seen, OwnKey(cfg, bar, Activity))
    requires inp.recorded ==> (id.Some? <==> Named(s, cfg, bar))
    ensures ClosesWith(s, ActivityAndClose(s, cfg, inp, bar, id), cfg, inp, bar, id)
  {
    var t := ActivityTrade(s, cfg, inp, bar);
    var c := ActivityAndClose(s, cfg, inp, bar, id);
    ActivityGains(s, cfg, inp, bar);
    if !t.raised {
      var watched := if inp.watching then MarkLoop(t.state, bar.close) else t.state;
      assert Named(watched, cfg, bar) <==> Named(t.state, cfg, bar);
      FinaliseCloses(watched, cfg, inp, bar, id);
      assert c == Cycled(Finalise(watched, cfg, inp, bar, id), true);
      ClosesAfter(s, watched, c, cfg, inp, bar, id);
    }
  }

  /** Steps that leave the decisions alone may come first. */
  lemma ClosesAfter(s: Loop, u: Loop, c: Cycled, cfg: Config, inp: Inputs, bar: Bar, id: Option<nat>)
    requires GainedOwnKeys(s, u, cfg, bar) && u.store.decisions == s.store.decisions
    requires ClosesWith(u, c, cfg, inp, bar, id)
    ensures ClosesWith(s, c, cfg, inp, bar, id)
  {
  }

  lemma FinaliseCloses(s: Loop, cfg: Config, inp: Inputs, bar: Bar, id: Option<nat>)
    requires inp.recorded ==> (id.Some? <==> Named(s, cfg, bar))
    ensures ClosesWith(s, Cycled(Finalise(s, cfg, inp, bar, id), true), cfg, inp, bar, id)
  {
  }

  /** A submission, and the close unless it raised. */
  lemma SubmitCloses(s: Loop, cfg: Config, inp: Inputs, channel: Channel, order: Order, bar: Bar)
    requires ProperVenue(inp) && Untouched(s, cfg, bar) && !channel.Activity?
    ensures var t := Submit(s, cfg, inp, channel, order, bar);
            ClosesWith(s, if t.raised then Cycled(t.state, false)
                          else Cycled(Finalise(t.state, cfg, inp, bar, t.tradeId), true), cfg, inp, bar, t.tradeId)
  {
    var t := Submit(s, cfg, inp, channel, order, bar);
    assert !Remembers(s.seen, OwnKey(cfg, bar, channel));
    SubmitGains(s, cfg, inp, channel, order, bar);
    if !t.raised {
      OnlyThisKey(s, t.state, cfg, bar, channel);
      FinaliseCloses(t.state, cfg, inp, bar, t.tradeId);
      ClosesAfter(s, t.state, Cycled(Finalise(t.state, cfg, inp, bar, t.tradeId), true), cfg, inp, bar, t.tradeId);
    }
  }

  lemma OnlyThisKey(s: Loop, t: Loop, cfg: Config, bar: Bar, channel: Channel)
    requires Untouched(s, cfg, bar) && !channel.Activity? && OnlyKey(s, t, OwnKey(cfg, bar, channel))
    ensures Named(t, cfg, bar) <==> HoldsFill(t.seen, OwnKey(cfg, bar, channel))
    ensures !Remembers(t.seen, OwnKey(cfg, bar, Activity))
  {
    assert forall other | other != channel :: !Remembers(s.seen, OwnKey(cfg, bar, other));
    assert !Remembers(s.seen, OwnKey(cfg, bar, Activity));
  }

  lemma MainCloses(s: Loop, cfg: Config, inp: Inputs, history: History) returns (id: Option<nat>)
    requires ProperVenue(inp) && Untouched(s, cfg, history[|history| - 1])
    ensures ClosesWith(s, MainPath(s, cfg, inp, history), cfg, inp, history[|history| - 1], id)
  {
    var bar, order := history[|history| - 1], GatedOrder(s, cfg, inp, history);
    if order.None? {
      id := None;
      assert !Remembers(s.seen, OwnKey(cfg, bar, Activity));
      ActivityCloses(s, cfg, inp, bar, None);
    } else {
      var t := Submit(s, cfg, inp, Base, order.value, bar);
      id := t.tradeId;
      SubmitGains(s, cfg, inp, Base, order.value, bar);
      OnlyThisKey(s, t.state, cfg, bar, Base);
      if !t.raised {
        ActivityCloses(t.state, cfg, inp, bar, id);
        ClosesAfter(s, t.state, ActivityAndClose(t.state, cfg, inp, bar, id), cfg, inp, bar, id);
      }
    }
  }

  lemma KolCloses(s: Loop, cfg: Config, inp: Inputs, history: History) returns (id: Option<nat>)
    requires ProperVenue(inp) && Untouched(s, cfg, history[|history| - 1])
    ensures ClosesWith(s, KolPath(s, cfg, inp, history), cfg, inp, history[|history| - 1], id)
  {
    var bar := history[|history| - 1];
    var marked := MarkLoop(s, bar.close);
    assert Untouched(marked, cfg, bar);
    if inp.kolOrder.None? {
      if inp.kolRefused {
        id := MainCloses(marked, cfg, inp, history);
        ClosesAfter(s, marked, MainPath(marked, cfg, inp, history), cfg, inp, bar, id);
      } else {
        id := MainCloses(s, cfg, inp, history);
      }
    } else {
      id := KolOrderCloses(marked, cfg, inp, history);
      ClosesAfter(s, marked, KolPath(s, cfg, inp, history), cfg, inp, bar, id);
    }
  }

  lemma KolOrderCloses(marked: Loop, cfg: Config, inp: Inputs, history: History) returns (id: Option<nat>)
    requires ProperVenue(inp) && Untouched(marked, cfg, history[|history| - 1]) && inp.kolOrder.Some?
    ensures var bar := history[|history| - 1];
            var t := Submit(marked, cfg, inp, Kol, inp.kolOrder.value, bar);
            ClosesWith(marked, if t.raised then MainPath(t.state, cfg, inp, history)
                               else Cycled(Finalise(t.state, cfg, inp, bar, t.tradeId), true), cfg, inp, bar, id)
  {
    var bar := history[|history| - 1];
    var t := Submit(marked, cfg, inp, Kol, inp.kolOrder.value, bar);
    SubmitCloses(marked, cfg, inp, Kol, inp.kolOrder.value, bar);
    id := t.tradeId;
    if t.raised {
      SubmitGains(marked, cfg, inp, Kol, inp.kolOrder.value, bar);
      forall channel
        ensures !Remembers(t.state.seen, OwnKey(cfg, bar, channel))
      {
        assert !Remembers(marked.seen, OwnKey(cfg, bar, channel));
      }
      id := MainCloses(t.state, cfg, inp, history);
      ClosesAfter(marked, t.state, MainPath(t.state, cfg, inp, history), cfg, inp, bar, id);
    }
  }

  lemma JudgedCloses(s: Loop, cfg: Config, inp: Inputs, history: History) returns (id: Option<nat>)
    requires ProperVenue(inp) && Untouched(s, cfg, history[|history| - 1])
    ensures ClosesWith(s, Judged(s, cfg, inp, history), cfg, inp, history[|history| - 1], id)
  {
    var bar := history[|history| - 1];
    var exposure := s.ledger.Exposure(bar.close);
    if inp.autopilot.Flatten? && exposure > EXPOSURE_EPSILON {
      var order := Order(Sell, exposure, cfg.symbol, bar.timestamp);
      SubmitCloses(s, cfg, inp, Autopilot, order, bar);
      id := Submit(s, cfg, inp, Autopilot, order, bar).tradeId;
    } else if inp.autopilot.HaltDay? {
      id := None;
      FinaliseCloses(s, cfg, inp, bar, None);
    } else {
      id := KolCloses(s, cfg, inp, history);
    }
  }

  lemma AutopilotCloses(s: Loop, cfg: Config, inp: Inputs, history: History) returns (id: Option<nat>)
    requires ProperVenue(inp) && Untouched(s, cfg, history[|history| - 1])
    ensures ClosesWith(s, AutopilotPath(s, cfg, inp, history), cfg, inp, history[|history| - 1], id)
  {
    var bar := history[|history| - 1];
    if inp.autopilot.Disabled? {
      var open := s.(blockEntry := false);
      assert Untouched(open, cfg, bar);
      id := KolCloses(open, cfg, inp, history);
      ClosesAfter(s, open, AutopilotPath(s, cfg, inp, history), cfg, inp, bar, id);
    } else {
      var judged := MarkLoop(s, bar.close).(blockEntry := inp.autopilot.BlockEntry?);
      assert Untouched(judged, cfg, bar);
      id := JudgedCloses(judged, cfg, inp, history);
      ClosesAfter(s, judged, AutopilotPath(s, cfg, inp, history), cfg, inp, bar, id);
    }
  }

  /** A whole cycle on a bar not touched before, described from its prepared state. */
  lemma CycleCloses(p: Loop, cfg: Config, step: Step) returns (id: Option<nat>)
    requires ProperVenue(step.inputs) && Untouched(p, cfg, step.Bar())
    ensures var inp := step.inputs;
            ClosesWith(p, if inp.floor.FloorHit? || inp.halted
                          then Cycled(Finalise(p, cfg, inp, step.Bar(), None), true)
                          else AutopilotPath(p, cfg, inp, step.history), cfg, inp, step.Bar(), id)
  {
    if step.inputs.floor.FloorHit? || step.inputs.halted {
      id := None;
      FinaliseCloses(p, cfg, step.inputs, step.Bar(), None);
    } else {
      id := AutopilotCloses(p, cfg, step.inputs, step.history);
    }
  }

  // ---- the two tables ----

  /** What recovery knows about bars from `now` on, when all rows but perhaps a last one are older. */
  lemma RecoveredKeys(store: Store, before: int, now: int, k: Key)
    requires DatedRows(store.decisions, before) && before < now <= k.timestamp
    ensures !Remembers(RecoveredSeen(store, map[]), k)
  {
    RecoveredKeysPast(store, before);
  }

  lemma RecoveredNewKey(store: Store, rows: seq<DecisionRow>, row: DecisionRow, before: int, k: Key)
    requires store.decisions == rows + [row] && DatedRows(rows, before)
    requires before < row.timestamp == row.cycle.timestamp <= k.timestamp
    ensures Remembers(RecoveredSeen(store, map[]), k) <==> k == row.cycle && row.tradeId.Some?
  {
    var newest := Newest(store.decisions, DecisionTime, RECENT);
    assert SortedBy(store.decisions, DecisionTime);
    NewestAreLast(store.decisions, DecisionTime, RECENT);
    MarkedExactly(map[], newest, k);
    assert store.decisions[|rows|] == row && forall j | 0 <= j < |rows| :: store.decisions[j] == rows[j];
    assert row in newest;
    if k in RecoveredSeen(store, map[]) {
      var i :| 0 <= i < |newest| && newest[i].cycle == k && newest[i].tradeId.Some?;
      assert newest[i] in newest;
      var j :| 0 <= j < |store.decisions| && store.decisions[j] == newest[i];
    }
  }

  /** Everything taken under the bar's keys was a fill under the base key, in a cycle that completed. */
  ghost predicate Settled(t: Loop, completed: bool, now: int) {
    forall k: Key | k.timestamp == now && Remembers(t.seen, k) ::
      k.channel.Base? && completed && HoldsFill(t.seen, k)
  }

  /** What the two tables hold after a cycle on a new bar, and how they compare. */
  ghost predicate BarTables(t: Loop, completed: bool, cfg: Config, bar: Bar) {
    var recovered := RecoveredSeen(t.store, map[]);
    && (SeenAlike(t.seen, recovered, bar.timestamp) <==> Settled(t, completed, bar.timestamp))
    && (Forgetful(recovered, bar.timestamp) <==> !(completed && Named(t, cfg, bar)))
    && forall k: Key | k.timestamp > bar.timestamp :: !Remembers(t.seen, k)
  }

  lemma ClosedTables(p: Loop, c: Cycled, cfg: Config, inp: Inputs, bar: Bar, id: Option<nat>, before: int)
    requires ClosesWith(p, c, cfg, inp, bar, id) && (inp.recorded || |c.state.fills| == |p.fills|)
    requires KeysPast(p, before) && before < bar.timestamp
    ensures BarTables(c.state, c.completed, cfg, bar)
  {
    var t, now, recovered := c.state, bar.timestamp, RecoveredSeen(c.state.store, map[]);
    var row := DecisionRow(OwnKey(cfg, bar, Base), now, id);
    assert forall k: Key | k.timestamp > now :: !Remembers(t.seen, k);
    if c.completed && inp.recorded {
      NewCycleIsAppended(p.store.decisions, row);
      forall k: Key | k.timestamp >= now
        ensures Remembers(recovered, k) <==> k == OwnKey(cfg, bar, Base) && Named(t, cfg, bar)
      {
        RecoveredNewKey(t.store, p.store.decisions, row, before, k);
      }
      CompletedTables(p, t, recovered, cfg, bar, before);
    } else {
      forall k: Key | k.timestamp >= now
        ensures !Remembers(recovered, k)
      {
        RecoveredKeys(t.store, before, now, k);
      }
      UnclosedTables(p, t, recovered, c.completed, cfg, bar, before);
    }
  }

  lemma CompletedTables(p: Loop, t: Loop, recovered: Seen, cfg: Config, bar: Bar, before: int)
    requires GainedOwnKeys(p, t, cfg, bar) && KeysPast(p, before) && before < bar.timestamp
    requires forall k: Key | k.timestamp >= bar.timestamp ::
               Remembers(recovered, k) <==> k == OwnKey(cfg, bar, Base) && Named(t, cfg, bar)
    ensures SeenAlike(t.seen, recovered, bar.timestamp) <==> Settled(t, true, bar.timestamp)
    ensures Forgetful(recovered, bar.timestamp) <==> !Named(t, cfg, bar)
  {
    var base := OwnKey(cfg, bar, Base);
    assert Remembers(recovered, base) <==> Named(t, cfg, bar);
    assert forall k: Key | HoldsFill(t.seen, k) :: Remembers(t.seen, k);
    if SeenAlike(t.seen, recovered, bar.timestamp) {
      forall k: Key | k.timestamp == bar.timestamp && Remembers(t.seen, k)
        ensures k.channel.Base? && HoldsFill(t.seen, k)
      {
        assert Remembers(recovered, k) && k == base;
        FillIsUnder(t, recovered, cfg, bar);
      }
    }
    if Settled(t, true, bar.timestamp) {
      assert Named(t, cfg, bar) ==> Remembers(t.seen, base);
      forall k: Key | k.timestamp >= bar.timestamp
        ensures Remembers(t.seen, k) <==> Remembers(recovered, k)
      {
        if Remembers(t.seen, k) {
          assert k.symbol == cfg.symbol && k.timestamp == bar.timestamp && k.channel.Base?;
        }
      }
    }
  }

  /** A nameable fill that recovery attributes to the base key was made under it. */
  lemma FillIsUnder(t: Loop, recovered: Seen, cfg: Config, bar: Bar)
    requires SeenAlike(t.seen, recovered, bar.timestamp) && Named(t, cfg, bar)
    requires forall k: Key | k.timestamp >= bar.timestamp && Remembers(recovered, k) :: k == OwnKey(cfg, bar, Base)
    ensures HoldsFill(t.seen, OwnKey(cfg, bar, Base))
  {
    forall channel: Channel | HoldsFill(t.seen, OwnKey(cfg, bar, channel))
      ensures channel.Base?
    {
      assert Remembers(t.seen, OwnKey(cfg, bar, channel));
    }
  }

  lemma UnclosedTables(p: Loop, t: Loop, recovered: Seen, completed: bool, cfg: Config, bar: Bar, before: int)
    requires GainedOwnKeys(p, t, cfg, bar) && KeysPast(p, before) && before < bar.timestamp
    requires forall k: Key | k.timestamp >= bar.timestamp :: !Remembers(recovered, k)
    requires completed ==> |t.fills| == |p.fills|
    ensures SeenAlike(t.seen, recovered, bar.timestamp) <==> Settled(t, completed, bar.timestamp)
    ensures Forgetful(recovered, bar.timestamp) && !(completed && Named(t, cfg, bar))
  {
    forall k: Key | completed && k.timestamp >= bar.timestamp
      ensures !HoldsFill(t.seen, k)
    {
      assert k !in p.seen;
    }
    assert forall k: Key | k.timestamp >= bar.timestamp && Remembers(t.seen, k) :: k.timestamp == bar.timestamp;
  }

  // ---- in terms of the log ----

  /** Nothing was taken under the bar's keys. */
  ghost predicate NothingTaken(log: seq<Event>, now: int) {
    forall key: Key | key.timestamp == now :: !TakenSinceSwitch(log, key)
  }

  /** Everything taken under them was a fill under the base key, in a cycle that completed. */
  ghost predicate OnlyBaseFilled(log: seq<Event>, completed: bool, now: int) {
    forall key: Key | key.timestamp == now && TakenSinceSwitch(log, key) ::
      key.channel.Base? && completed && FilledSinceSwitch(log, key)
  }

  /** A completed cycle filled something other than the activity rule's trade. */
  ghost predicate NamesTrade(log: seq<Event>, completed: bool, cfg: Config, bar: Bar) {
    completed && exists channel: Channel :: !channel.Activity? && FilledSinceSwitch(log, OwnKey(cfg, bar, channel))
  }

  lemma TablesInLog(start: Seen, t: Loop, completed: bool, cfg: Config, bar: Bar)
    requires TableIsLog(start, t.log, t.seen) && Forgetful(start, bar.timestamp)
    ensures Settled(t, completed, bar.timestamp) <==> OnlyBaseFilled(t.log, completed, bar.timestamp)
    ensures completed && Named(t, cfg, bar) <==> NamesTrade(t.log, completed, cfg, bar)
    ensures (forall k: Key | k.timestamp == bar.timestamp :: !Remembers(t.seen, k))
            <==> NothingTaken(t.log, bar.timestamp)
  {
    forall key: Key | key.timestamp == bar.timestamp
      ensures Remembers(t.seen, key) <==> TakenSinceSwitch(t.log, key)
      ensures HoldsFill(t.seen, key) <==> FilledSinceSwitch(t.log, key)
    {
      assert HoldsFill(start, key) ==> Remembers(start, key);
    }
    NamedInLog(t, cfg, bar);
  }

  lemma NamedInLog(t: Loop, cfg: Config, bar: Bar)
    requires forall key: Key | key.timestamp == bar.timestamp ::
               HoldsFill(t.seen, key) <==> FilledSinceSwitch(t.log, key)
    ensures Named(t, cfg, bar)
            <==> exists channel: Channel :: !channel.Activity? && FilledSinceSwitch(t.log, OwnKey(cfg, bar, channel))
  {
    forall channel: Channel
      ensures HoldsFill(t.seen, OwnKey(cfg, bar, channel)) <==> FilledSinceSwitch(t.log, OwnKey(cfg, bar, channel))
    {
    }
  }

  // ---- over runs ----

  /** A cycle on a bar later than every key and row so far. */
  lemma NewBarTables(s: Loop, t: Loop, cfg: Config, step: Step, before: int)
    requires t == After(s, cfg, step) && Reliable(s, t, step.inputs)
    requires KeysPast(s, before) && before < step.Bar().timestamp
    ensures BarTables(t, Completes(s, cfg, step), cfg, step.Bar())
  {
    var inp, bar := step.inputs, step.Bar();
    var p := Prepare(s, cfg, inp, bar);
    PreparedMode(s, cfg, step);
    var events := PrepareWrites(s, cfg, inp, bar);
    assert p.store == s.store;
    var id := CycleCloses(p, cfg, step);
    ClosedTables(p, Cycle(s, cfg, inp, step.history), cfg, inp, bar, id, before);
  }

  lemma LastIsReliable(s: Loop, cfg: Config, before: seq<Step>, last: Step)
    requires FillsRecorded(s, cfg, before + [last])
    ensures Reliable(RunSteps(s, cfg, before), RunSteps(s, cfg, before + [last]), last.inputs)
  {
    assert (before + [last])[..|before|] == before;
  }

  lemma {:induction false} RecordedVenues(s: Loop, cfg: Config, steps: seq<Step>)
    requires FillsRecorded(s, cfg, steps)
    ensures forall step | step in steps :: ProperVenue(step.inputs)
    decreases |steps|
  {
    if steps != [] {
      RecordedVenues(s, cfg, steps[..|steps| - 1]);
    }
  }

  /** The run of a process from `s`, whose keys and rows are older than its last bar. */
  lemma LastBarTables(s: Loop, cfg: Config, before: seq<Step>, last: Step, at: int)
    requires s.log == [] && KeysPast(s, at) && at < last.Bar().timestamp
    requires FillsRecorded(s, cfg, before + [last]) && InOrder(before)
    requires forall step | step in before :: at <= step.Bar().timestamp < last.Bar().timestamp
    ensures var mid, t := RunSteps(s, cfg, before), RunSteps(s, cfg, before + [last]);
            && BarTables(t, Completes(mid, cfg, last), cfg, last.Bar())
            && TableIsLog(s.seen, t.log, t.seen) && Forgetful(s.seen, last.Bar().timestamp)
  {
    var mid, t := RunSteps(s, cfg, before), RunSteps(s, cfg, before + [last]);
    LastIsReliable(s, cfg, before, last);
    RunSnoc(s, mid, cfg, before, last);
    var since := if before == [] then at else before[|before| - 1].Bar().timestamp;
    RunKeepsKeysPast(s, cfg, before, at, since);
    NewBarTables(mid, t, cfg, last, since);
    RecordedVenues(s, cfg, before + [last]);
    RunKeepsTable(s, cfg, before + [last]);
  }

  /** The process after `earlier` ones that ran `before` and crashed on the new bar of `last`. */
  function CrashedOn(earlier: seq<Process>, mode: Mode, before: seq<Step>, last: Step): seq<Process> {
    earlier + [Process(mode, before + [last])]
  }

  /** Where that process stood before its last cycle. */
  function BeforeLast(initial: real, cfg: Config, earlier: seq<Process>, mode: Mode, before: seq<Step>): Loop {
    RunSteps(Started(Life(initial, cfg, earlier).store, initial, mode), cfg, before)
  }

  /** Its fills were recorded, in time order, and its last bar is later than all before. */
  ghost predicate NewLastBar(initial: real, cfg: Config, earlier: seq<Process>, mode: Mode, before: seq<Step>,
                             last: Step) {
    && ReliableLife(initial, cfg, CrashedOn(earlier, mode, before, last))
    && forall step | step in AllSteps(earlier) + before :: step.Bar().timestamp < last.Bar().timestamp
  }

  lemma CrashedLife(initial: real, cfg: Config, earlier: seq<Process>, mode: Mode, before: seq<Step>, last: Step)
    ensures var all := CrashedOn(earlier, mode, before, last);
            && all[..|all| - 1] == earlier && AllSteps(all) == AllSteps(earlier) + (before + [last])
            && Life(initial, cfg, all)
               == RunSteps(Started(Life(initial, cfg, earlier).store, initial, mode), cfg, before + [last])
  {
    var all := CrashedOn(earlier, mode, before, last);
    assert all[..|all| - 1] == earlier;
  }

  lemma CrashedTables(initial: real, cfg: Config, earlier: seq<Process>, mode: Mode, before: seq<Step>, last: Step)
    requires NewLastBar(initial, cfg, earlier, mode, before, last)
    ensures var start := Started(Life(initial, cfg, earlier).store, initial, mode);
            var t := Life(initial, cfg, CrashedOn(earlier, mode, before, last));
            && BarTables(t, Completes(BeforeLast(initial, cfg, earlier, mode, before), cfg, last), cfg, last.Bar())
            && TableIsLog(start.seen, t.log, t.seen) && Forgetful(start.seen, last.Bar().timestamp)
  {
    var now := last.Bar().timestamp;
    var at := if before == [] then now - 1 else before[0].Bar().timestamp;
    CrashedLife(initial, cfg, earlier, mode, before, last);
    ProcessesInOrder(CrashedOn(earlier, mode, before, last));
    BeforeIsEarlier(earlier, before, last, now);
    LifeKeysPast(initial, cfg, earlier, at);
    ProcessTables(Life(initial, cfg, earlier), initial, cfg, mode, before, last, at);
  }

  /** The last process alone, started from the log `s` left. */
  lemma ProcessTables(s: Loop, initial: real, cfg: Config, mode: Mode, before: seq<Step>, last: Step, at: int)
    requires KeysPast(s, at) && at < last.Bar().timestamp
    requires FillsRecorded(Started(s.store, initial, mode), cfg, before + [last]) && InOrder(before)
    requires forall step | step in before :: at <= step.Bar().timestamp < last.Bar().timestamp
    ensures var start := Started(s.store, initial, mode);
            var mid, t := RunSteps(start, cfg, before), RunSteps(start, cfg, before + [last]);
            && BarTables(t, Completes(mid, cfg, last), cfg, last.Bar())
            && TableIsLog(start.seen, t.log, t.seen) && Forgetful(start.seen, last.Bar().timestamp)
  {
    RecoveredKeysPast(s.store, at);
    LastBarTables(Started(s.store, initial, mode), cfg, before, last, at);
  }

  lemma BeforeIsEarlier(earlier: seq<Process>, before: seq<Step>, last: Step, now: int)
    requires InOrder(AllSteps(earlier)) && InOrder(before + [last]) && now == last.Bar().timestamp
    requires forall step | step in AllSteps(earlier) + before :: step.Bar().timestamp < now
    requires forall step | step in AllSteps(earlier) :: step.Bar().timestamp <= (before + [last])[0].Bar().timestamp
    ensures UpTo(AllSteps(earlier), if before == [] then now - 1 else before[0].Bar().timestamp)
    ensures InOrder(before)
    ensures before != [] ==> forall step | step in before :: before[0].Bar().timestamp <= step.Bar().timestamp < now
  {
    var steps := before + [last];
    assert forall i | 0 <= i < |before| :: before[i] == steps[i];
    forall step | step in before
      ensures before[0].Bar().timestamp <= step.Bar().timestamp < now
    {
      assert step in AllSteps(earlier) + before;
      var i :| 0 <= i < |before| && before[i] == step;
    }
    forall step | step in AllSteps(earlier)
      ensures step.Bar().timestamp < now
    {
      assert step in AllSteps(earlier) + before;
    }
  }

  /**
   The last bar of a process, however many came before, when it was a new one: recovery knows the same of its keys as
   the loop that crashed if and only if everything filled or simulated under them was filled under the base key, in a
   cycle that completed. A fill of an overlay or of the activity rule, or one whose cycle then raised, is sent again.
   */
  lemma OwnBarKnownIff(initial: real, cfg: Config, earlier: seq<Process>, mode: Mode, before: seq<Step>, last: Step)
    requires NewLastBar(initial, cfg, earlier, mode, before, last)
    ensures var t := Life(initial, cfg, CrashedOn(earlier, mode, before, last));
            var completed := Completes(BeforeLast(initial, cfg, earlier, mode, before), cfg, last);
            SeenAlike(t.seen, RecoveredSeen(t.store, map[]), last.Bar().timestamp)
            <==> OnlyBaseFilled(t.log, completed, last.Bar().timestamp)
  {
    CrashedTables(initial, cfg, earlier, mode, before, last);
    TablesInLog(Started(Life(initial, cfg, earlier).store, initial, mode).seen,
                Life(initial, cfg, CrashedOn(earlier, mode, before, last)),
                Completes(BeforeLast(initial, cfg, earlier, mode, before), cfg, last), cfg, last.Bar());
  }

  /** What the log of the crashed loop, and the switches of the next cycle, must say for the tables to meet. */
  ghost predicate MeetsInLog(t: Loop, completed: bool, back: Loop, cfg: Config, bar: Bar, next: Step) {
    if Switches(t, cfg, next) then Switches(back, cfg, next) || !NamesTrade(t.log, completed, cfg, bar)
    else if Switches(back, cfg, next) then NothingTaken(t.log, bar.timestamp)
    else OnlyBaseFilled(t.log, completed, bar.timestamp)
  }

  /**
   And launched in any mode: after the preparation of the next cycle the two tables agree about that bar if and only
   if both loops switch; or only the old one would, and the last cycle left no row that names a trade; or only the new
   one does, and nothing was taken under the bar's keys; or neither, and all of it was filled under the base key.
   */
  lemma OwnBarMeetsIff(initial: real, cfg: Config, earlier: seq<Process>, mode: Mode, before: seq<Step>, last: Step,
                       boot: Mode, next: Step)
    requires NewLastBar(initial, cfg, earlier, mode, before, last)
    ensures var t := Life(initial, cfg, CrashedOn(earlier, mode, before, last));
            var completed := Completes(BeforeLast(initial, cfg, earlier, mode, before), cfg, last);
            var back := Started(t.store, initial, boot);
            TablesMeet(t, back, cfg, next, last.Bar().timestamp)
            <==> MeetsInLog(t, completed, back, cfg, last.Bar(), next)
  {
    var t := Life(initial, cfg, CrashedOn(earlier, mode, before, last));
    CrashedTables(initial, cfg, earlier, mode, before, last);
    StateMeetsIff(Started(Life(initial, cfg, earlier).store, initial, mode).seen, t,
                  Completes(BeforeLast(initial, cfg, earlier, mode, before), cfg, last),
                  Started(t.store, initial, boot), cfg, last.Bar(), next);
  }

  lemma StateMeetsIff(start: Seen, t: Loop, completed: bool, back: Loop, cfg: Config, bar: Bar, next: Step)
    requires BarTables(t, completed, cfg, bar) && back.seen == RecoveredSeen(t.store, map[])
    requires TableIsLog(start, t.log, t.seen) && Forgetful(start, bar.timestamp)
    ensures TablesMeet(t, back, cfg, next, bar.timestamp) <==> MeetsInLog(t, completed, back, cfg, bar, next)
  {
    TablesInLog(start, t, completed, cfg, bar);
    NothingLater(t, bar.timestamp);
  }

  lemma NothingLater(t: Loop, now: int)
    requires forall k: Key | k.timestamp > now :: !Remembers(t.seen, k)
    ensures Forgetful(t.seen, now) <==> forall k: Key | k.timestamp == now :: !Remembers(t.seen, k)
  {
  }

  /**
   Such a process, crashed, relaunched in whatever mode and fed its last bar again and then later ones, resumes if the
   modes meet in its first cycle and the log says that the tables do.
   */
  lemma CrashedOnItsBarResumes(initial: real, cfg: Config, earlier: seq<Process>, mode: Mode, before: seq<Step>,
                               last: Step, boot: Mode, after: seq<Step>)
    requires NewLastBar(initial, cfg, earlier, mode, before, last)
    requires |Life(initial, cfg, CrashedOn(earlier, mode, before, last)).store.trades| <= RECENT
    requires forall step | step in after :: step.Bar().timestamp >= last.Bar().timestamp
    requires after != [] ==>
               var t := Life(initial, cfg, CrashedOn(earlier, mode, before, last));
               var completed := Completes(BeforeLast(initial, cfg, earlier, mode, before), cfg, last);
               var back := Started(t.store, initial, boot);
               && ModesMeet(t, back, cfg, after[0]) && MeetsInLog(t, completed, back, cfg, last.Bar(), after[0])
               && (cfg.activityFloor ==> CarriedOver(t, Day(after[0])) == 0)
    ensures Resumes(Life(initial, cfg, CrashedOn(earlier, mode, before, last)), initial, boot, cfg, after)
  {
    var all, now := CrashedOn(earlier, mode, before, last), last.Bar().timestamp;
    CrashedLife(initial, cfg, earlier, mode, before, last);
    UpToLast(AllSteps(earlier), before, last);
    if after != [] {
      OwnBarMeetsIff(initial, cfg, earlier, mode, before, last, boot, after[0]);
    }
    CrashedRunResumes(initial, cfg, all, boot, after, now);
  }

  lemma UpToLast(earlier: seq<Step>, before: seq<Step>, last: Step)
    requires forall step | step in earlier + before :: step.Bar().timestamp < last.Bar().timestamp
    ensures UpTo(earlier + (before + [last]), last.Bar().timestamp)
  {
    forall step | step in earlier + (before + [last])
      ensures step.Bar().timestamp <= last.Bar().timestamp
    {
      assert step in earlier + before || step == last;
    }
  }

  /** Where the tables disagree, an order the venue would fill is filled by one loop and not by the other. */
  lemma DisagreementIsVisible(a: Loop, b: Loop, cfg: Config, inp: Inputs, channel: Channel, order: Order, bar: Bar)
    requires Remembers(a.seen, OwnKey(cfg, bar, channel)) && !Remembers(b.seen, OwnKey(cfg, bar, channel))
    requires inp.venue(OwnKey(cfg, bar, channel), order).IsFill()
    ensures Submit(a, cfg, inp, channel, order, bar).state.fills == a.fills
    ensures |Submit(b, cfg, inp, channel, order, bar).state.fills| == |b.fills| + 1
  {
    var key := OwnKey(cfg, bar, channel);
    var report := inp.venue(key, order).report;
    KnownKeySubmits(a, cfg, inp, channel, order, bar);
    NewKeySubmits(b, cfg, inp, channel, order, bar);
    var asked := Note(b, Asked(key)).(seen := ExecuteOnce(b.seen, key, order, inp.venue(key, order)).seen);
    FillWrites(asked, key, report, report.fill.value, bar, inp);
  }
}
