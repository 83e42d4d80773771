/** One set of books, crash included: a quiet paper run cut anywhere, recovered and resumed, against the simulator. */
module PaperCrash {
  import opened Market
  import opened Engine
  import opened Ledgers
  import opened Executors
  import opened Loops
  import opened LoopMoves
  import opened Recovery
  import opened Lives
  import opened ModeSafety
  import opened Restart
  import opened Parity

  /** The books of a paper run that crashed after k bars and was resumed: what both processes did together. */
  ghost predicate SameAcrossCrash(sim: Sim, crashed: Loop, resumed: Loop) {
    && crashed.fills + resumed.fills == sim.record.fills
    && crashed.curve + resumed.curve == sim.record.curve
    && resumed.ledger.cash == sim.account.cash && resumed.ledger.units == sim.account.units
  }

  lemma QuietVenueIsProper(inp: Inputs, bar: Bar, cost: CostModel)
    requires Quiet(inp, bar, cost)
    ensures ProperVenue(inp)
  {
    forall key, order
      ensures inp.venue(key, order).Proper()
    {
      assert inp.venue(key, order) == PaperReply(order, bar, cost);
    }
  }

  lemma {:induction false} AllRecorded(s: Loop, cfg: Config, steps: seq<Step>)
    requires forall step | step in steps :: step.inputs.recorded && ProperVenue(step.inputs)
    ensures FillsRecorded(s, cfg, steps)
    decreases |steps|
  {
    if steps != [] {
      AllRecorded(s, cfg, steps[..|steps| - 1]);
    }
  }

  /** Every write of the run reaches the log, and its venue is the paper executor. */
  lemma RecordedRunIsReliable(bars: seq<Bar>, setup: Setup, cfg: Config, env: nat -> Inputs)
    requires QuietRun(bars, setup, cfg, env) && forall i: nat | i < |bars| :: env(i).recorded
    ensures FillsRecorded(Boot(setup.initial, PaperMode), cfg, ReplaySteps(bars, 0, |bars|, env))
  {
    var steps := ReplaySteps(bars, 0, |bars|, env);
    forall step | step in steps
      ensures step.inputs.recorded && ProperVenue(step.inputs)
    {
      var i: nat :| i < |bars| && steps[i] == step;
      QuietVenueIsProper(env(i), bars[i], setup.cost);
    }
    AllRecorded(Boot(setup.initial, PaperMode), cfg, steps);
  }

  lemma ReplaySplits(bars: seq<Bar>, env: nat -> Inputs, k: nat)
    requires k <= |bars|
    ensures var steps := ReplaySteps(bars, 0, |bars|, env);
            && |steps| == |bars| && steps[..k] == ReplaySteps(bars[..k], 0, k, env)
            && forall i | 0 <= i < |bars| :: steps[i].Bar() == bars[i]
  {
    var steps, head := ReplaySteps(bars, 0, |bars|, env), ReplaySteps(bars[..k], 0, k, env);
    forall i | 0 <= i < k
      ensures steps[i] == head[i]
    {
      assert bars[..k][..i + 1] == bars[..i + 1];
    }
  }

  ghost predicate StrictlyLater(bars: seq<Bar>) {
    forall i, j | 0 <= i < j < |bars| :: bars[i].timestamp < bars[j].timestamp
  }

  /** Replaying the first k bars and then the rest: in order, with every later bar past `now`. */
  ghost predicate Cut(before: seq<Step>, after: seq<Step>, now: int) {
    && InOrder(before) && (before != [] ==> now == before[|before| - 1].Bar().timestamp)
    && forall step | step in after :: step.Bar().timestamp > now
  }

  lemma CutOf(bars: seq<Bar>, before: seq<Step>, after: seq<Step>, now: int)
    requires |before| + |after| == |bars| && StrictlyLater(bars)
    requires forall i | 0 <= i < |before| :: before[i].Bar() == bars[i]
    requires forall i | 0 <= i < |after| :: after[i].Bar() == bars[|before| + i]
    requires now == if before != [] then bars[|before| - 1].timestamp
                    else if bars == [] then 0 else bars[0].timestamp - 1
    ensures Cut(before, after, now)
  {
    forall step | step in after
      ensures step.Bar().timestamp > now
    {
      var i :| 0 <= i < |after| && after[i] == step;
      assert step.Bar() == bars[|before| + i];
    }
  }

  lemma ReplayCuts(bars: seq<Bar>, env: nat -> Inputs, k: nat) returns (now: int)
    requires k <= |bars| && StrictlyLater(bars)
    ensures var steps, before := ReplaySteps(bars, 0, |bars|, env), ReplaySteps(bars[..k], 0, k, env);
            |steps| == |bars| && steps == before + steps[k..] && Cut(before, steps[k..], now)
  {
    var steps, before := ReplaySteps(bars, 0, |bars|, env), ReplaySteps(bars[..k], 0, k, env);
    ReplaySplits(bars, env, k);
    now := if k > 0 then bars[k - 1].timestamp else if bars == [] then 0 else bars[0].timestamp - 1;
    SplitBars(bars, steps, before, steps[k..]);
    CutOf(bars, before, steps[k..], now);
  }

  lemma SplitBars(bars: seq<Bar>, steps: seq<Step>, before: seq<Step>, after: seq<Step>)
    requires |steps| == |bars| && |before| <= |steps| && steps[..|before|] == before && steps[|before|..] == after
    requires forall i | 0 <= i < |bars| :: steps[i].Bar() == bars[i]
    ensures steps == before + after && |before| + |after| == |bars|
    ensures forall i | 0 <= i < |before| :: before[i].Bar() == bars[i]
    ensures forall i | 0 <= i < |after| :: after[i].Bar() == bars[|before| + i]
  {
    assert forall i | 0 <= i < |before| :: before[i] == steps[i];
    assert forall i | 0 <= i < |after| :: after[i] == steps[|before| + i];
  }

  lemma QuietIsUntoggled(bars: seq<Bar>, setup: Setup, cfg: Config, env: nat -> Inputs, k: nat)
    requires QuietRun(bars, setup, cfg, env) && k <= |bars|
    ensures forall step | step in ReplaySteps(bars[..k], 0, k, env) :: step.inputs.desired.None?
  {
    var steps := ReplaySteps(bars[..k], 0, k, env);
    forall step | step in steps
      ensures step.inputs.desired.None?
    {
      var i: nat :| i < k && steps[i] == step;
      assert Quiet(env(i), bars[i], setup.cost);
    }
  }

  /** Fed strictly later bars in its own mode, with the activity rule off, every mirrored state resumes. */
  lemma LaterBarsResume(s: Loop, initial: real, cfg: Config, after: seq<Step>, at: int, now: int)
    requires Mirrored(s, initial, at) && |s.store.trades| <= RECENT && KeysPast(s, now) && !cfg.activityFloor
    requires forall step | step in after :: step.Bar().timestamp > now
    ensures Resumes(s, initial, s.mode, cfg, after)
  {
    if after != [] {
      LaterTablesMeet(s, initial, s.mode, cfg, after[0], now);
    }
    StateResumes(s, initial, s.mode, cfg, after, at, now + 1);
  }

  lemma CutKeepsPast(initial: real, cfg: Config, before: seq<Step>, after: seq<Step>, now: int)
    requires Cut(before, after, now)
    ensures KeysPast(RunSteps(Boot(initial, PaperMode), cfg, before), now)
  {
    RunKeepsKeysPast(Boot(initial, PaperMode), cfg, before,
                     if before == [] then now else before[0].Bar().timestamp, now);
  }

  lemma CutRunResumes(initial: real, cfg: Config, before: seq<Step>, after: seq<Step>, now: int)
    requires !cfg.activityFloor && Cut(before, after, now) && FillsRecorded(Boot(initial, PaperMode), cfg, before)
    requires forall step | step in before :: step.inputs.desired.None?
    requires |RunSteps(Boot(initial, PaperMode), cfg, before).store.trades| <= RECENT
    ensures var crashed := RunSteps(Boot(initial, PaperMode), cfg, before);
            var live := RunSteps(Boot(initial, PaperMode), cfg, before + after);
            var resumed := RunSteps(Started(crashed.store, initial, PaperMode), cfg, after);
            && live.fills == crashed.fills + resumed.fills && live.curve == crashed.curve + resumed.curve
            && Accounts(live.ledger) == Accounts(resumed.ledger)
  {
    var crashed := RunSteps(Boot(initial, PaperMode), cfg, before);
    var at := RunIsMirrored(initial, PaperMode, cfg, before);
    CutKeepsPast(initial, cfg, before, after, now);
    UntoggledKeepsMode(Boot(initial, PaperMode), cfg, before);
    RunConcat(Boot(initial, PaperMode), cfg, before, after);
    LaterBarsResume(crashed, initial, cfg, after, at, now);
  }

  /** A quiet run cut anywhere: the crashed part and the resumed part add up to the run that never stopped. */
  lemma CrashedPaperRunResumes(bars: seq<Bar>, setup: Setup, cfg: Config, env: nat -> Inputs, k: nat)
    requires QuietRun(bars, setup, cfg, env) && forall i: nat | i < |bars| :: env(i).recorded
    requires k <= |bars| && StrictlyLater(bars)
    requires |LiveRun(bars[..k], setup, cfg, env).store.trades| <= RECENT
    ensures var crashed, live := LiveRun(bars[..k], setup, cfg, env), LiveRun(bars, setup, cfg, env);
            var resumed := RunSteps(Started(crashed.store, setup.initial, PaperMode), cfg,
                                    ReplaySteps(bars, 0, |bars|, env)[k..]);
            && live.fills == crashed.fills + resumed.fills && live.curve == crashed.curve + resumed.curve
            && Accounts(live.ledger) == Accounts(resumed.ledger)
  {
    var before := ReplaySteps(bars[..k], 0, k, env);
    var now := ReplayCuts(bars, env, k);
    assert QuietRun(bars[..k], setup, cfg, env) by {
      assert forall i | 0 <= i < k :: bars[..k][i] == bars[i];
    }
    RecordedRunIsReliable(bars[..k], setup, cfg, env);
    QuietIsUntoggled(bars, setup, cfg, env, k);
    CutRunResumes(setup.initial, cfg, before, ReplaySteps(bars, 0, |bars|, env)[k..], now);
  }

  /**
   One set of books: over strictly later bars, a quiet recorded paper run that crashes after any k bars, with at
   most 500 trades by then, recovers and goes on, fills what the uninterrupted simulation fills if and only if the
   simulation refuses nothing and asks for no dust; then equity curve, cash and units agree as well.
   */
  lemma OneSetOfBooks(bars: seq<Bar>, setup: Setup, cfg: Config, env: nat -> Inputs, k: nat)
    requires QuietRun(bars, setup, cfg, env) && forall i: nat | i < |bars| :: env(i).recorded
    requires k <= |bars| && StrictlyLater(bars)
    requires |LiveRun(bars[..k], setup, cfg, env).store.trades| <= RECENT
    ensures var crashed := LiveRun(bars[..k], setup, cfg, env);
            var resumed := RunSteps(Started(crashed.store, setup.initial, PaperMode), cfg,
                                    ReplaySteps(bars, 0, |bars|, env)[k..]);
            && (crashed.fills + resumed.fills == Run(bars, setup).record.fills <==> Feasible(bars, setup))
            && (Feasible(bars, setup) ==> SameAcrossCrash(Run(bars, setup), crashed, resumed))
  {
    SimLiveParity(bars, setup, cfg, env);
    CrashedPaperRunResumes(bars, setup, cfg, env, k);
  }
}
