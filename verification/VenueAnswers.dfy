/**
 A cycle depends on the venue only through its answers to the orders the cycle puts to it: how it would have answered
 anything else makes no difference. With `CycleAsks` this pins what goes out, down to the size the gates leave.
 */
module VenueAnswers {
  import opened Market
  import opened Executors
  import opened Loops
  import opened LoopMoves
  import opened ModeSafety
  import opened KeyTables
  import opened CycleAsks

  type Replies = (Key, Order) -> Reply

  /** The two venues answer the order on the channel alike, if the table leaves it to them. */
  predicate Alike(s: Loop, cfg: Config, step: Step, venue: Replies, channel: Channel, order: Option<Order>) {
    var key := CycleKey(cfg, step, channel);
    order.Some? && !Remembers(TableOf(s, cfg, step), key) ==>
      venue(key, order.value) == step.inputs.venue(key, order.value)
  }

  predicate SameRequest(q: Loop, cfg: Config, step: Step, venue: Replies, channel: Channel, order: Order) {
    Submit(q, cfg, step.inputs.(venue := venue), channel, order, step.Bar())
    == Submit(q, cfg, step.inputs, channel, order, step.Bar())
  }

  lemma RequestAlike(s: Loop, q: Loop, cfg: Config, step: Step, venue: Replies, channel: Channel, order: Order)
    requires var key := CycleKey(cfg, step, channel); Remembers(q.seen, key) == Remembers(TableOf(s, cfg, step), key)
    requires Alike(s, cfg, step, venue, channel, Some(order))
    ensures SameRequest(q, cfg, step, venue, channel, order)
  {
    var key, other := CycleKey(cfg, step, channel), step.inputs.(venue := venue);
    if Remembers(q.seen, key) {
      KnownKeySubmits(q, cfg, step.inputs, channel, order, step.Bar());
      KnownKeySubmits(q, cfg, other, channel, order, step.Bar());
    } else {
      NewKeySubmits(q, cfg, step.inputs, channel, order, step.Bar());
      NewKeySubmits(q, cfg, other, channel, order, step.Bar());
      VenueIsNotReadTwice(Note(q, Asked(key)).(seen := ExecuteOnce(q.seen, key, order, venue(key, order)).seen), key,
                          venue(key, order), step, venue);
    }
  }

  /** Handling an answer reads nothing more of the venue. */
  lemma VenueIsNotReadTwice(a: Loop, key: Key, reply: Reply, step: Step, venue: Replies)
    ensures reply.Answer? ==>
              HandleExecution(a, key, reply.report, step.Bar(), step.inputs.(venue := venue))
              == HandleExecution(a, key, reply.report, step.Bar(), step.inputs)
  {
  }

  lemma CloseReadsNoVenue(q: Loop, cfg: Config, step: Step, venue: Replies, tradeId: Option<nat>)
    ensures Finalise(q, cfg, step.inputs.(venue := venue), step.Bar(), tradeId)
         == Finalise(q, cfg, step.inputs, step.Bar(), tradeId)
  {
  }

  lemma ForcedAlike(s: Loop, q: Loop, cfg: Config, step: Step, venue: Replies, notes: seq<Event>, asked: set<Key>,
                    valued: bool)
    requires Ready(s, q, cfg, step, notes, asked, valued) && CycleKey(cfg, step, Activity) !in asked
    requires Alike(s, cfg, step, venue, Activity, Forced(s, cfg, step))
    ensures ActivityTrade(q, cfg, step.inputs.(venue := venue), step.Bar())
         == ActivityTrade(q, cfg, step.inputs, step.Bar())
  {
    var forced := Forced(s, cfg, step);
    ForcedFromReady(s, q, cfg, step, notes, asked, valued);
    if forced.Some? {
      RequestAlike(s, q, cfg, step, venue, Activity, forced.value);
      RequestAlike(s, MarkLoop(q, step.Bar().close), cfg, step, venue, Activity, forced.value);
    }
    SameForcedTrade(q, cfg, step, venue);
  }

  lemma SameForcedTrade(q: Loop, cfg: Config, step: Step, venue: Replies)
    requires var order := ActivityOrder(q, cfg, step.inputs, step.Bar());
             order.Some? ==>
               && SameRequest(q, cfg, step, venue, Activity, order.value)
               && SameRequest(MarkLoop(q, step.Bar().close), cfg, step, venue, Activity, order.value)
    ensures ActivityTrade(q, cfg, step.inputs.(venue := venue), step.Bar())
         == ActivityTrade(q, cfg, step.inputs, step.Bar())
  {
  }

  lemma ActivityAlike(s: Loop, q: Loop, cfg: Config, step: Step, venue: Replies, notes: seq<Event>, asked: set<Key>,
                      valued: bool, tradeId: Option<nat>)
    requires Ready(s, q, cfg, step, notes, asked, valued) && CycleKey(cfg, step, Activity) !in asked
    requires Alike(s, cfg, step, venue, Activity, Forced(s, cfg, step))
    ensures SameClose(q, cfg, step, venue, tradeId)
  {
    var t := ActivityTrade(q, cfg, step.inputs, step.Bar());
    ForcedAlike(s, q, cfg, step, venue, notes, asked, valued);
    CloseReadsNoVenue(if step.inputs.watching then MarkLoop(t.state, step.Bar().close) else t.state, cfg, step, venue,
                      tradeId);
  }

  predicate SameClose(q: Loop, cfg: Config, step: Step, venue: Replies, tradeId: Option<nat>) {
    ActivityAndClose(q, cfg, step.inputs.(venue := venue), step.Bar(), tradeId)
    == ActivityAndClose(q, cfg, step.inputs, step.Bar(), tradeId)
  }

  /** The strategy's path, with both steps alike. */
  lemma SameMain(q: Loop, cfg: Config, step: Step, venue: Replies)
    requires var order := GatedOrder(q, cfg, step.inputs, step.history);
             if order.None? then SameClose(q, cfg, step, venue, None)
             else
               && SameRequest(q, cfg, step, venue, Base, order.value)
               && var t := Submit(q, cfg, step.inputs, Base, order.value, step.Bar());
                  t.raised || SameClose(t.state, cfg, step, venue, t.tradeId)
    ensures MainPath(q, cfg, step.inputs.(venue := venue), step.history)
         == MainPath(q, cfg, step.inputs, step.history)
  {
  }

  lemma MainAlike(s: Loop, q: Loop, cfg: Config, step: Step, venue: Replies, notes: seq<Event>, asked: set<Key>,
                  valued: bool)
    requires Ready(s, q, cfg, step, notes, asked, valued) && Decides(s, cfg, step)
    requires CycleKey(cfg, step, Base) !in asked && CycleKey(cfg, step, Activity) !in asked
    requires Alike(s, cfg, step, venue, Base, Asks(s, cfg, step, Base))
    requires Alike(s, cfg, step, venue, Activity, Asks(s, cfg, step, Activity))
    ensures SameDecision(q, cfg, step, venue)
  {
    var wanted := Wanted(cfg, step);
    WantedIsGated(q, cfg, step);
    if wanted.None? {
      ActivityAlike(s, q, cfg, step, venue, notes, asked, valued, None);
    } else {
      RequestAlike(s, q, cfg, step, venue, Base, wanted.value);
      AnsweredAlike(s, q, cfg, step, venue, notes, asked, valued, wanted.value);
    }
    SameMain(q, cfg, step, venue);
  }

  /** After the strategy's request. */
  lemma AnsweredAlike(s: Loop, q: Loop, cfg: Config, step: Step, venue: Replies, notes: seq<Event>, asked: set<Key>,
                      valued: bool, wanted: Order)
    requires Ready(s, q, cfg, step, notes, asked, valued)
    requires CycleKey(cfg, step, Base) !in asked && CycleKey(cfg, step, Activity) !in asked
    requires Alike(s, cfg, step, venue, Activity, ForcedAfter(s, cfg, step, Heard(s, cfg, step, Base, Some(wanted))))
    ensures var t := Submit(q, cfg, step.inputs, Base, wanted, step.Bar());
            t.raised || SameClose(t.state, cfg, step, venue, t.tradeId)
  {
    var t, heard := Submit(q, cfg, step.inputs, Base, wanted, step.Bar()), Heard(s, cfg, step, Base, Some(wanted));
    var more := notes + NotesOn(s, cfg, step, Base, Some(wanted));
    RequestFromReady(s, q, t, cfg, step, notes, asked, valued, Base, wanted);
    if !t.raised {
      if Filling(heard).None? {
        ActivityAlike(s, t.state, cfg, step, venue, more, asked + {CycleKey(cfg, step, Base)}, valued, t.tradeId);
      } else {
        QuietAlike(t.state, cfg, step, venue, t.tradeId);
      }
    }
  }

  /** The activity rule is silent, and nothing is asked. */
  lemma QuietAlike(q: Loop, cfg: Config, step: Step, venue: Replies, tradeId: Option<nat>)
    requires q.tradesToday > 0
    ensures SameClose(q, cfg, step, venue, tradeId)
  {
    CloseReadsNoVenue(if step.inputs.watching then MarkLoop(q, step.Bar().close) else q, cfg, step, venue, tradeId);
  }

  ghost predicate AllAlike(s: Loop, cfg: Config, step: Step, venue: Replies) {
    forall channel :: Alike(s, cfg, step, venue, channel, Asks(s, cfg, step, channel))
  }

  predicate SameDecision(q: Loop, cfg: Config, step: Step, venue: Replies) {
    MainPath(q, cfg, step.inputs.(venue := venue), step.history) == MainPath(q, cfg, step.inputs, step.history)
  }

  /** The social overlay's path, with both steps alike. */
  lemma SameOverlay(q: Loop, cfg: Config, step: Step, venue: Replies)
    requires var order, marked := step.inputs.kolOrder, MarkLoop(q, step.Bar().close);
             if order.None? then SameDecision(if step.inputs.kolRefused then marked else q, cfg, step, venue)
             else
               && SameRequest(marked, cfg, step, venue, Kol, order.value)
               && var t := Submit(marked, cfg, step.inputs, Kol, order.value, step.Bar());
                  t.raised ==> SameDecision(t.state, cfg, step, venue)
    ensures KolPath(q, cfg, step.inputs.(venue := venue), step.history) == KolPath(q, cfg, step.inputs, step.history)
  {
    var t := if step.inputs.kolOrder.None? then Traded(q, None, false)
             else Submit(MarkLoop(q, step.Bar().close), cfg, step.inputs, Kol, step.inputs.kolOrder.value, step.Bar());
    CloseReadsNoVenue(t.state, cfg, step, venue, t.tradeId);
  }

  lemma KolAlike(s: Loop, q: Loop, cfg: Config, step: Step, venue: Replies, valued: bool)
    requires Ready(s, q, cfg, step, [], {}, valued) && Listens(s, step) && AllAlike(s, cfg, step, venue)
    ensures KolPath(q, cfg, step.inputs.(venue := venue), step.history) == KolPath(q, cfg, step.inputs, step.history)
  {
    var order, marked := step.inputs.kolOrder, MarkLoop(q, step.Bar().close);
    LookFromReady(s, q, cfg, step, [], {}, valued);
    assert Alike(s, cfg, step, venue, Base, Asks(s, cfg, step, Base));
    assert Alike(s, cfg, step, venue, Activity, Asks(s, cfg, step, Activity));
    if order.None? {
      var refused := step.inputs.kolRefused;
      MainAlike(s, if refused then marked else q, cfg, step, venue, [], {}, valued || refused);
    } else {
      assert Alike(s, cfg, step, venue, Kol, Asks(s, cfg, step, Kol));
      RequestAlike(s, marked, cfg, step, venue, Kol, order.value);
      RaisedAlike(s, marked, cfg, step, venue, order.value);
    }
    SameOverlay(q, cfg, step, venue);
  }

  /** After the social overlay's request raised. */
  lemma RaisedAlike(s: Loop, q: Loop, cfg: Config, step: Step, venue: Replies, order: Order)
    requires Ready(s, q, cfg, step, [], {}, true) && Listens(s, step) && step.inputs.kolOrder == Some(order)
    requires Alike(s, cfg, step, venue, Base, Asks(s, cfg, step, Base))
    requires Alike(s, cfg, step, venue, Activity, Asks(s, cfg, step, Activity))
    ensures var t := Submit(q, cfg, step.inputs, Kol, order, step.Bar());
            t.raised ==> SameDecision(t.state, cfg, step, venue)
  {
    var t, notes := Submit(q, cfg, step.inputs, Kol, order, step.Bar()), NotesOn(s, cfg, step, Kol, Some(order));
    RequestFromReady(s, q, t, cfg, step, [], {}, true, Kol, order);
    if t.raised {
      assert [] + notes == notes;
      MainAlike(s, t.state, cfg, step, venue, notes, {} + {CycleKey(cfg, step, Kol)}, true);
    }
  }

  lemma JudgedAlike(s: Loop, q: Loop, cfg: Config, step: Step, venue: Replies, valued: bool)
    requires Ready(s, q, cfg, step, [], {}, valued) && Runs(step) && AllAlike(s, cfg, step, venue)
    ensures Judged(q, cfg, step.inputs.(venue := venue), step.history) == Judged(q, cfg, step.inputs, step.history)
  {
    assert q.ledger.Exposure(step.Bar().close) == s.ledger.Exposure(step.Bar().close);
    if Flattens(s, step) {
      assert Alike(s, cfg, step, venue, Autopilot, Asks(s, cfg, step, Autopilot));
      RequestAlike(s, q, cfg, step, venue, Autopilot, FlattenOrder(s, cfg, step));
    } else if !step.inputs.autopilot.HaltDay? {
      KolAlike(s, q, cfg, step, venue, valued);
    }
  }

  predicate SamePath(p: Loop, cfg: Config, step: Step, venue: Replies) {
    AutopilotPath(p, cfg, step.inputs.(venue := venue), step.history)
    == AutopilotPath(p, cfg, step.inputs, step.history)
  }

  lemma AutopilotAlike(s: Loop, p: Loop, cfg: Config, step: Step, venue: Replies, valued: bool)
    requires Ready(s, p.(blockEntry := step.inputs.autopilot.BlockEntry?), cfg, step, [], {}, valued)
    requires Runs(step) && AllAlike(s, cfg, step, venue)
    ensures SamePath(p, cfg, step, venue)
  {
    var gated := p.(blockEntry := step.inputs.autopilot.BlockEntry?);
    if step.inputs.autopilot.Disabled? {
      KolAlike(s, gated, cfg, step, venue, valued);
    } else {
      LookFromReady(s, gated, cfg, step, [], {}, valued);
      JudgedAlike(s, MarkLoop(gated, step.Bar().close), cfg, step, venue, true);
    }
  }

  lemma PreparationReadsNoVenue(s: Loop, cfg: Config, step: Step, venue: Replies)
    ensures Prepare(s, cfg, step.inputs.(venue := venue), step.Bar()) == Prepare(s, cfg, step.inputs, step.Bar())
  {
  }

  /** A cycle depends on the venue only through its answers to what it asks under keys the table leaves to it. */
  lemma CycleHearsOnlyItsAnswers(s: Loop, cfg: Config, step: Step, venue: Replies)
    requires AllAlike(s, cfg, step, venue)
    ensures Cycle(s, cfg, step.inputs.(venue := venue), step.history) == Cycle(s, cfg, step.inputs, step.history)
  {
    var p := Prepare(s, cfg, step.inputs, step.Bar());
    if Runs(step) {
      PreparedIsReady(s, p, cfg, step);
      AutopilotAlike(s, p, cfg, step, venue, LooksAtOnce(s, step));
    }
    SameCycle(s, cfg, step, venue);
  }

  /** A cycle is its preparation and its path. */
  lemma SameCycle(s: Loop, cfg: Config, step: Step, venue: Replies)
    requires Runs(step) ==> SamePath(Prepare(s, cfg, step.inputs, step.Bar()), cfg, step, venue)
    ensures Cycle(s, cfg, step.inputs.(venue := venue), step.history) == Cycle(s, cfg, step.inputs, step.history)
  {
    PreparationReadsNoVenue(s, cfg, step, venue);
    CloseReadsNoVenue(Prepare(s, cfg, step.inputs, step.Bar()), cfg, step, venue, None);
  }

  // ---- the strategy's order ----

  lemma {:induction false} NotesKeepRequests(log: seq<Event>, key: Key)
    ensures Asked(key) in Notes(log) <==> Asked(key) in log
  {
    if log != [] {
      var init, last := log[..|log| - 1], log[|log| - 1];
      NotesKeepRequests(init, key);
      assert log == init + [last];
    }
  }

  lemma NotedRequests(order: Option<Order>, own: Key, heard: Option<Reply>, mode: Mode, key: Key)
    ensures Asked(key) in Noted(order, own, heard, mode) <==> order.Some? && key == own
  {
    if order.Some? {
      assert Noted(order, own, heard, mode)[0] == Asked(own);
    }
  }

  /** A request under a channel's key is logged exactly if the cycle puts an order to the executor there. */
  lemma AskedIff(s: Loop, cfg: Config, step: Step, channel: Channel)
    ensures var t := After(s, cfg, step);
            && s.log <= t.log
            && (Asked(CycleKey(cfg, step, channel)) in Since(s, t) <==> Asks(s, cfg, step, channel).Some?)
  {
    var t, key := After(s, cfg, step), CycleKey(cfg, step, channel);
    CycleDoesAsItAsks(s, cfg, step);
    NotesKeepRequests(Since(s, t), key);
    RequestsOf(s, cfg, step, channel);
  }

  lemma RequestsOf(s: Loop, cfg: Config, step: Step, channel: Channel)
    ensures Asked(CycleKey(cfg, step, channel)) in NotesOf(s, cfg, step) <==> Asks(s, cfg, step, channel).Some?
  {
    forall other: Channel
      ensures Asked(CycleKey(cfg, step, channel)) in NotesOn(s, cfg, step, other, Asks(s, cfg, step, other))
              <==> Asks(s, cfg, step, other).Some? && other == channel
    {
      var order := Asks(s, cfg, step, other);
      NotedRequests(order, CycleKey(cfg, step, other), Heard(s, cfg, step, other, order), ModeOf(s, cfg, step),
                    CycleKey(cfg, step, channel));
    }
  }

  /**
   Where the overlays leave the decision to the strategy, its order goes out at the size the gates cut it to: how
   the venue would answer any other order under that key makes no difference, a fill it gives for that one under a
   key it may fill is the cycle's fill, and a blocked or vetoed order is not asked for at all.
   */
  lemma GatedSizeGoesOut(s: Loop, cfg: Config, step: Step, venue: Replies)
    requires Decides(s, cfg, step)
    requires forall key, order | key != CycleKey(cfg, step, Base) || Wanted(cfg, step) == Some(order) ::
               venue(key, order) == step.inputs.venue(key, order)
    ensures Cycle(s, cfg, step.inputs.(venue := venue), step.history) == Cycle(s, cfg, step.inputs, step.history)
    ensures var t, base := After(s, cfg, step), CycleKey(cfg, step, Base);
            && s.log <= t.log && (Asked(base) in Since(s, t) <==> Wanted(cfg, step).Some?)
            && (Wanted(cfg, step).Some? && !Remembers(TableOf(s, cfg, step), base) ==>
                  (var reply := step.inputs.venue(base, Wanted(cfg, step).value);
                   reply.IsFill() ==> t.fills == s.fills + [reply.report.fill.value]))
  {
    CycleHearsOnlyItsAnswers(s, cfg, step, venue);
    CycleDoesAsItAsks(s, cfg, step);
    AskedIff(s, cfg, step, Base);
    if FillOn(s, cfg, step, Base).Some? {
      OneTradePerCycle(s, cfg, step, Base);
    }
  }
}
