/**
 Walk-forward validation: parameters are chosen on a training slice, scored on the test slice that
 follows it, and the window rolls by the test length. Out-of-sample returns are stitched together.
 */
module WalkForward {
  import opened Market
  import opened Engine
  import opened EngineLaws

  datatype Config = Config(trainBars: nat, testBars: nat, minTrainBars: nat, realisticFill: bool)

  type Params = map<string, real>

  datatype Window = Window(train: seq<Bar>, test: seq<Bar>)

  datatype Harness = Harness(optimize: seq<Bar> -> Params, factory: Params -> Strategy, cost: CostModel, initial: real)

  /** The window at `start`: none if training does not fit or is too short, or no test bar is left. */
  function NextWindow(bars: seq<Bar>, cfg: Config, start: nat): Option<Window> {
    var trainEnd := start + cfg.trainBars;
    var testEnd := trainEnd + cfg.testBars;
    if trainEnd > |bars| || cfg.trainBars < cfg.minTrainBars then None
    else
      var test := if testEnd <= |bars| then bars[trainEnd..testEnd] else bars[trainEnd..];
      if test == [] then None else Some(Window(bars[start..trainEnd], test))
  }

  /** The windows a rule yields, one step after another, up to a bound. */
  function Roll(next: nat -> Option<Window>, step: nat, start: nat, bound: nat): seq<Window>
    decreases bound - start
  {
    if start >= bound || step == 0 || next(start).None? then []
    else [next(start).value] + Roll(next, step, start + step, bound)
  }

  function Nexts(bars: seq<Bar>, cfg: Config): nat -> Option<Window> {
    (start: nat) => NextWindow(bars, cfg, start)
  }

  /** The windows from `start` on. */
  function Windows(bars: seq<Bar>, cfg: Config, start: nat): seq<Window> {
    Roll(Nexts(bars, cfg), cfg.testBars, start, |bars|)
  }

  lemma WindowsFrom(bars: seq<Bar>, cfg: Config, start: nat)
    ensures Windows(bars, cfg, start)
         == match NextWindow(bars, cfg, start)
            case None => []
            case Some(w) => [w] + Windows(bars, cfg, start + cfg.testBars)
  {
    assert Nexts(bars, cfg)(start) == NextWindow(bars, cfg, start);
  }

  function SetupFor(h: Harness, cfg: Config, params: Params): Setup {
    Setup(h.factory(params), h.cost, h.initial, cfg.realisticFill)
  }

  /** The out-of-sample record of a window: chosen on its training slice, run on its test slice. */
  function Score(h: Harness, cfg: Config, w: Window): Record {
    Run(w.test, SetupFor(h, cfg, h.optimize(w.train))).record
  }

  /** Parameters and records of the windows, one for one. */
  function ScoreAll(h: Harness, cfg: Config, windows: seq<Window>): seq<(Params, Record)> {
    if windows == [] then []
    else
      var last := windows[|windows| - 1];
      ScoreAll(h, cfg, windows[..|windows| - 1]) + [(h.optimize(last.train), Score(h, cfg, last))]
  }

  method SliceWindow(bars: seq<Bar>, cfg: Config, start: nat) returns (w: Option<Window>)
    ensures w == NextWindow(bars, cfg, start)
    ensures w.Some? ==> cfg.testBars > 0 && start < |bars|
  {
    var trainEnd := start + cfg.trainBars;
    var testEnd := trainEnd + cfg.testBars;
    if trainEnd > |bars| || trainEnd - start < cfg.minTrainBars {
      return None;
    }
    var train := bars[start..trainEnd];
    var test := if testEnd <= |bars| then bars[trainEnd..testEnd] else bars[trainEnd..];
    if test == [] {
      return None;
    }
    return Some(Window(train, test));
  }

  /**
   Window k trains on the bars that end where its test slice begins, k test lengths in. Result k is what the
   optimiser makes of the one, and the record of the strategy built from exactly that, run on the other.
   */
  ghost predicate WalkedForward(bars: seq<Bar>, h: Harness, cfg: Config, results: seq<(Params, Record)>) {
    && (forall k: nat :: HasResult(bars, cfg, results, k))
    && (forall k: nat | k < |results| :: IsResult(bars, h, cfg, results[k], k))
  }

  predicate HasResult(bars: seq<Bar>, cfg: Config, results: seq<(Params, Record)>, k: nat) {
    k < |results| <==> Rolls(cfg) && TestFrom(cfg, k) < |bars|
  }

  ghost predicate IsResult(bars: seq<Bar>, h: Harness, cfg: Config, result: (Params, Record), k: nat) {
    && TestFrom(cfg, k) < |bars|
    && TrainedAndTested(result, TrainSlice(bars, cfg, k), TestSlice(bars, cfg, k), h, cfg)
  }

  ghost predicate TrainedAndTested(result: (Params, Record), train: seq<Bar>, test: seq<Bar>, h: Harness, cfg: Config) {
    && result.0 == h.optimize(train)
    && result.1 == Run(test, Setup(h.factory(result.0), h.cost, h.initial, cfg.realisticFill)).record
  }

  /** The windows up to `start` are scored. */
  ghost predicate Walked(results: seq<(Params, Record)>, bars: seq<Bar>, h: Harness, cfg: Config, start: nat) {
    && start == Shifted(0, |results|, cfg.testBars)
    && (results != [] ==> Rolls(cfg))
    && forall k: nat | k < |results| :: IsResult(bars, h, cfg, results[k], k)
  }

  lemma OneMoreResult(results: seq<(Params, Record)>, result: (Params, Record), w: Window, bars: seq<Bar>, h: Harness,
                      cfg: Config, start: nat)
    requires Walked(results, bars, h, cfg, start) && NextWindow(bars, cfg, start) == Some(w)
    requires TrainedAndTested(result, w.train, w.test, h, cfg)
    ensures Walked(results + [result], bars, h, cfg, start + cfg.testBars)
  {
    NextIsSlices(bars, cfg, |results|, w);
    OneMoreShift(|results|, cfg.testBars);
    forall k: nat | k < |results| + 1
      ensures IsResult(bars, h, cfg, (results + [result])[k], k)
    {
      assert k < |results| ==> IsResult(bars, h, cfg, results[k], k);
    }
  }

  /** The window at k lengths is the two slices. */
  lemma NextIsSlices(bars: seq<Bar>, cfg: Config, k: nat, w: Window)
    requires NextWindow(bars, cfg, Shifted(0, k, cfg.testBars)) == Some(w)
    ensures Rolls(cfg) && TestFrom(cfg, k) < |bars|
    ensures w == Window(TrainSlice(bars, cfg, k), TestSlice(bars, cfg, k))
  {
  }

  lemma OneMoreShift(k: nat, length: nat)
    ensures Shifted(0, k + 1, length) == Shifted(0, k, length) + length
  {
    ShiftedIsProduct(0, k + 1, length);
    ShiftedIsProduct(0, k, length);
  }

  lemma WalkedOut(results: seq<(Params, Record)>, bars: seq<Bar>, h: Harness, cfg: Config, start: nat)
    requires Walked(results, bars, h, cfg, start) && NextWindow(bars, cfg, start).None?
    ensures WalkedForward(bars, h, cfg, results)
  {
    forall k: nat
      ensures HasResult(bars, cfg, results, k)
    {
      if k < |results| {
        assert IsResult(bars, h, cfg, results[k], k);
      } else {
        LaterStarts(|results|, k, cfg.testBars);
      }
    }
  }

  lemma LaterStarts(i: nat, k: nat, length: nat)
    requires i <= k
    ensures Shifted(0, i, length) <= Shifted(0, k, length)
  {
    ShiftedIsProduct(0, i, length);
    ShiftedIsProduct(0, k, length);
    assert (k - i) * length >= 0;
    assert k * length == i * length + (k - i) * length;
  }

  /** Optimise on the training slice, then run the chosen strategy on the test slice only. */
  method ScoreNext(results: seq<(Params, Record)>, w: Window, ghost bars: seq<Bar>, h: Harness, cfg: Config,
                   ghost start: nat)
    returns (more: seq<(Params, Record)>)
    requires Walked(results, bars, h, cfg, start) && NextWindow(bars, cfg, start) == Some(w)
    ensures Walked(more, bars, h, cfg, start + cfg.testBars)
  {
    var params := h.optimize(w.train);
    var result, _, _ := RunBacktest(w.test, SetupFor(h, cfg, params));
    more := results + [(params, result.View())];
    OneMoreResult(results, (params, result.View()), w, bars, h, cfg, start);
  }

  /** Each result is the pair of chosen parameters and out-of-sample record of one window. */
  method RunWalkForward(bars: seq<Bar>, h: Harness, cfg: Config) returns (results: seq<(Params, Record)>)
    ensures WalkedForward(bars, h, cfg, results)
  {
    results := [];
    var start := 0;
    while true
      invariant Walked(results, bars, h, cfg, start)
      decreases |bars| - start
    {
      var w := SliceWindow(bars, cfg, start);
      if w.None? {
        WalkedOut(results, bars, h, cfg, start);
        return;
      }
      results := ScoreNext(results, w.value, bars, h, cfg, start);
      start := start + cfg.testBars;
    }
  }

  /** k lengths on. */
  function Shifted(start: nat, k: nat, length: nat): nat
    decreases k
  {
    if k == 0 then start else Shifted(start + length, k - 1, length)
  }

  lemma {:induction false} ShiftedIsProduct(start: nat, k: nat, length: nat)
    ensures Shifted(start, k, length) == start + k * length
    decreases k
  {
    if k > 0 {
      ShiftedIsProduct(start + length, k - 1, length);
    }
  }

  function TestFrom(cfg: Config, k: nat): nat { Shifted(0, k, cfg.testBars) + cfg.trainBars }

  function TrainSlice(bars: seq<Bar>, cfg: Config, k: nat): seq<Bar>
    requires TestFrom(cfg, k) < |bars|
  {
    bars[Shifted(0, k, cfg.testBars)..TestFrom(cfg, k)]
  }

  /** A whole test length, or what is left of the history. */
  function TestSlice(bars: seq<Bar>, cfg: Config, k: nat): seq<Bar>
    requires TestFrom(cfg, k) < |bars|
  {
    var end := TestFrom(cfg, k) + cfg.testBars;
    bars[TestFrom(cfg, k)..if end <= |bars| then end else |bars|]
  }

  lemma {:induction false} ShiftedForward(start: nat, k: nat, length: nat)
    ensures Shifted(start, k, length) >= start
    decreases k
  {
    if k > 0 {
      ShiftedForward(start + length, k - 1, length);
    }
  }

  /** There is a window k exactly as long as its test slice would begin before the end. */
  lemma {:induction false} WindowExists(bars: seq<Bar>, cfg: Config, start: nat, k: nat)
    ensures k < |Windows(bars, cfg, start)|
            <==> Rolls(cfg) && Shifted(start, k, cfg.testBars) + cfg.trainBars < |bars|
    decreases k
  {
    WindowsFrom(bars, cfg, start);
    if k > 0 {
      ShiftedForward(start + cfg.testBars, k - 1, cfg.testBars);
      WindowExists(bars, cfg, start + cfg.testBars, k - 1);
    }
  }

  lemma {:induction false} RollAt(next: nat -> Option<Window>, step: nat, start: nat, bound: nat, k: nat)
    requires k < |Roll(next, step, start, bound)|
    ensures next(Shifted(start, k, step)) == Some(Roll(next, step, start, bound)[k])
    decreases k
  {
    if k > 0 {
      RollAt(next, step, start + step, bound, k - 1);
    }
  }

  /** Window k is the one that starts k test lengths in. */
  lemma WindowAt(bars: seq<Bar>, cfg: Config, start: nat, k: nat)
    requires k < |Windows(bars, cfg, start)|
    ensures NextWindow(bars, cfg, Shifted(start, k, cfg.testBars)) == Some(Windows(bars, cfg, start)[k])
  {
    RollAt(Nexts(bars, cfg), cfg.testBars, start, |bars|, k);
    var at := Shifted(start, k, cfg.testBars);
    assert Nexts(bars, cfg)(at) == NextWindow(bars, cfg, at);
  }

  lemma ScoresWalkForward(bars: seq<Bar>, h: Harness, cfg: Config)
    ensures WalkedForward(bars, h, cfg, ScoreAll(h, cfg, Windows(bars, cfg, 0)))
  {
    var windows := Windows(bars, cfg, 0);
    ScoreCount(h, cfg, windows);
    var results := ScoreAll(h, cfg, windows);
    forall k: nat
      ensures HasResult(bars, cfg, results, k)
    {
      WindowExists(bars, cfg, 0, k);
    }
    forall k: nat | k < |results|
      ensures IsResult(bars, h, cfg, results[k], k)
    {
      assert HasResult(bars, cfg, results, k);
      ScoreAt(h, cfg, windows, k);
      WindowIsSlices(bars, cfg, windows, k);
    }
  }

  /** There is only one such list of results. */
  lemma WalkIsScored(bars: seq<Bar>, h: Harness, cfg: Config, results: seq<(Params, Record)>)
    requires WalkedForward(bars, h, cfg, results)
    ensures results == ScoreAll(h, cfg, Windows(bars, cfg, 0))
  {
    var scores := ScoreAll(h, cfg, Windows(bars, cfg, 0));
    ScoresWalkForward(bars, h, cfg);
    SameWalk(bars, h, cfg, results, scores);
  }

  lemma SameWalk(bars: seq<Bar>, h: Harness, cfg: Config, a: seq<(Params, Record)>, b: seq<(Params, Record)>)
    requires WalkedForward(bars, h, cfg, a) && WalkedForward(bars, h, cfg, b)
    ensures a == b
  {
    assert HasResult(bars, cfg, a, |a|) && HasResult(bars, cfg, a, |b|);
    assert HasResult(bars, cfg, b, |a|) && HasResult(bars, cfg, b, |b|);
    forall k: nat | k < |a|
      ensures a[k] == b[k]
    {
      assert IsResult(bars, h, cfg, a[k], k) && IsResult(bars, h, cfg, b[k], k);
    }
  }

  lemma WindowIsSlices(bars: seq<Bar>, cfg: Config, windows: seq<Window>, k: nat)
    requires windows == Windows(bars, cfg, 0) && k < |windows| && TestFrom(cfg, k) < |bars|
    ensures windows[k] == Window(TrainSlice(bars, cfg, k), TestSlice(bars, cfg, k))
  {
    WindowAt(bars, cfg, 0, k);
  }

  // ---- the windows tile the history ----

  function Tests(windows: seq<Window>): seq<Bar> {
    if windows == [] then [] else windows[0].test + Tests(windows[1..])
  }

  /** Windows exist only for a positive test length and a training slice that is long enough and fits. */
  predicate Rolls(cfg: Config) {
    cfg.testBars > 0 && cfg.trainBars >= cfg.minTrainBars
  }

  function Tail(bars: seq<Bar>, from: nat): seq<Bar> { if from <= |bars| then bars[from..] else [] }

  /** The test slices concatenate to everything after the first training slice, and nothing else does. */
  lemma {:induction false} TestsTileHistory(bars: seq<Bar>, cfg: Config, start: nat)
    ensures Tests(Windows(bars, cfg, start)) == if Rolls(cfg) then Tail(bars, start + cfg.trainBars) else []
    decreases |bars| - start
  {
    var w, tail, more := FirstTestAndTail(bars, cfg, start);
    if w.Some? {
      TestsTileHistory(bars, cfg, start + cfg.testBars);
      TestsCons(Windows(bars, cfg, start), w.value, Windows(bars, cfg, start + cfg.testBars));
    }
  }

  /** What is left of the history from a window on: its test slice, and what is left from the next one on. */
  lemma FirstTestAndTail(bars: seq<Bar>, cfg: Config, start: nat)
    returns (w: Option<Window>, tail: seq<Bar>, more: seq<Bar>)
    ensures tail == Tail(bars, start + cfg.trainBars) && more == Tail(bars, start + cfg.testBars + cfg.trainBars)
    ensures w.None? ==> Windows(bars, cfg, start) == [] && (Rolls(cfg) ==> tail == [])
    ensures w.Some? ==> Windows(bars, cfg, start) == [w.value] + Windows(bars, cfg, start + cfg.testBars)
    ensures w.Some? ==> Rolls(cfg) && start < |bars| && tail == w.value.test + more
  {
    w := NextWindow(bars, cfg, start);
    tail, more := Tail(bars, start + cfg.trainBars), Tail(bars, start + cfg.testBars + cfg.trainBars);
    TestSplitsTail(bars, cfg, start);
    WindowsFrom(bars, cfg, start);
  }

  lemma TestsCons(windows: seq<Window>, w: Window, rest: seq<Window>)
    requires windows == [w] + rest
    ensures Tests(windows) == w.test + Tests(rest)
  {
    assert windows[1..] == rest;
  }

  lemma TestSplitsTail(bars: seq<Bar>, cfg: Config, start: nat)
    ensures var w, tail := NextWindow(bars, cfg, start), Tail(bars, start + cfg.trainBars);
            if w.None? then Rolls(cfg) ==> tail == []
            else Rolls(cfg) && start < |bars| && tail == w.value.test + Tail(bars, start + cfg.testBars + cfg.trainBars)
  {
  }

  /** The window trains on the bars right before its test slice. */
  ghost predicate SlicedAt(w: Window, bars: seq<Bar>, cfg: Config, from: nat) {
    && from + cfg.trainBars < |bars|
    && w.train == bars[from..from + cfg.trainBars]
    && w.test != [] && |w.test| <= cfg.testBars
    && w.test <= bars[from + cfg.trainBars..]
  }

  /** Window k starts k test lengths in. */
  lemma WindowSlices(bars: seq<Bar>, cfg: Config, start: nat, k: nat)
    requires k < |Windows(bars, cfg, start)|
    ensures SlicedAt(Windows(bars, cfg, start)[k], bars, cfg, Shifted(start, k, cfg.testBars))
  {
    WindowAt(bars, cfg, start, k);
    NextWindowSlices(bars, cfg, Shifted(start, k, cfg.testBars));
  }

  lemma NextWindowSlices(bars: seq<Bar>, cfg: Config, start: nat)
    requires NextWindow(bars, cfg, start).Some?
    ensures SlicedAt(NextWindow(bars, cfg, start).value, bars, cfg, start)
  {
  }

  /** A window's parameters do not move when bars at or after its test slice change. */
  lemma ParamsIgnoreTestBars(a: seq<Bar>, b: seq<Bar>, h: Harness, cfg: Config, k: nat, from: nat)
    requires k < |Windows(a, cfg, 0)| && k < |Windows(b, cfg, 0)| && from == k * cfg.testBars
    requires from + cfg.trainBars <= |a| && from + cfg.trainBars <= |b|
    requires a[..from + cfg.trainBars] == b[..from + cfg.trainBars]
    ensures h.optimize(Windows(a, cfg, 0)[k].train) == h.optimize(Windows(b, cfg, 0)[k].train)
  {
    WindowSlices(a, cfg, 0, k);
    WindowSlices(b, cfg, 0, k);
    ShiftedIsProduct(0, k, cfg.testBars);
    SameTraining(Windows(a, cfg, 0)[k], Windows(b, cfg, 0)[k], a, b, cfg, from);
  }

  lemma SameTraining(v: Window, w: Window, a: seq<Bar>, b: seq<Bar>, cfg: Config, from: nat)
    requires SlicedAt(v, a, cfg, from) && SlicedAt(w, b, cfg, from)
    requires a[..from + cfg.trainBars] == b[..from + cfg.trainBars]
    ensures v.train == w.train
  {
    SliceOfPrefix(a, from, cfg.trainBars);
    SliceOfPrefix(b, from, cfg.trainBars);
  }

  lemma SliceOfPrefix(bars: seq<Bar>, from: nat, length: nat)
    requires from + length <= |bars|
    ensures bars[from..from + length] == bars[..from + length][from..]
  {
  }

  /** Inside a window, what has been recorded after m test bars does not depend on later bars either. */
  lemma ScoreIgnoresLaterBars(a: Window, b: Window, h: Harness, cfg: Config, m: nat)
    requires a.train == b.train && m <= |a.test| && m <= |b.test| && a.test[..m] == b.test[..m]
    ensures exists early: Record :: |early.curve| == m
              && forall whole | whole in {Score(h, cfg, a), Score(h, cfg, b)} ::
                   early.fills <= whole.fills && early.trades <= whole.trades && early.curve <= whole.curve
  {
    var setup := SetupFor(h, cfg, h.optimize(a.train));
    NoLookAhead(a.test, b.test, m, setup);
    RunExtendsPrefix(a.test, m, setup);
    assert |Run(a.test[..m], setup).record.curve| == m;
  }

  // ---- stitched returns ----

  /** Every point but the last can be divided by. */
  ghost predicate Divisible(curve: seq<real>) {
    forall i | 0 <= i < |curve| - 1 :: curve[i] != 0.0
  }

  function Change(before: real, after: real): real
    requires before != 0.0
  {
    (after - before) / before
  }

  /** Point-to-point relative changes. */
  function Returns(curve: seq<real>): seq<real>
    requires Divisible(curve)
  {
    if |curve| <= 1 then []
    else Returns(curve[..|curve| - 1]) + [Change(curve[|curve| - 2], curve[|curve| - 1])]
  }

  function Times(x: real, y: real): real { x * y }

  function Compound(rs: seq<real>): real {
    if rs == [] then 1.0 else Times(Compound(rs[..|rs| - 1]), 1.0 + rs[|rs| - 1])
  }

  /** Last equity over first equity; one for a window without a second point. */
  function Growth(curve: seq<real>): real
    requires Divisible(curve)
  {
    if |curve| <= 1 then 1.0 else curve[|curve| - 1] / curve[0]
  }

  function TotalGrowth(curves: seq<seq<real>>): real
    requires forall c | c in curves :: Divisible(c)
  {
    if curves == [] then 1.0 else Times(TotalGrowth(curves[..|curves| - 1]), Growth(curves[|curves| - 1]))
  }

  lemma {:induction false} ReturnsTelescope(curve: seq<real>)
    requires Divisible(curve)
    ensures Compound(Returns(curve)) == Growth(curve)
  {
    if |curve| > 1 {
      var init := curve[..|curve| - 1];
      ReturnsTelescope(init);
      CompoundOneMore(curve);
      StepRatio(Growth(init), curve[0], curve[|curve| - 2], curve[|curve| - 1]);
    }
  }

  lemma CompoundOneMore(curve: seq<real>)
    requires Divisible(curve) && |curve| > 1
    ensures Compound(Returns(curve))
         == Times(Compound(Returns(curve[..|curve| - 1])), 1.0 + Change(curve[|curve| - 2], curve[|curve| - 1]))
  {
    CompoundAppend(Returns(curve[..|curve| - 1]), Change(curve[|curve| - 2], curve[|curve| - 1]));
  }

  lemma CompoundAppend(rs: seq<real>, r: real)
    ensures Compound(rs + [r]) == Times(Compound(rs), 1.0 + r)
  {
    assert (rs + [r])[..|rs|] == rs;
  }

  /** If mid is the given multiple of first, one more return reaches last over first. */
  lemma StepRatio(growth: real, first: real, mid: real, last: real)
    requires first != 0.0 && mid != 0.0 && growth == mid / first
    ensures Times(growth, 1.0 + Change(mid, last)) == last / first
  {
    var r := Change(mid, last);
    assert r * mid == last - mid;
    assert growth * first == mid;
    assert (growth * (1.0 + r)) * first == mid * (1.0 + r) == last;
    UniqueQuotient(growth * (1.0 + r), first, last);
  }

  lemma UniqueQuotient(q: real, d: real, n: real)
    requires d != 0.0 && q * d == n
    ensures q == n / d
  {
    assert (n / d) * d == n;
    assert (q - n / d) * d == 0.0;
  }

  lemma {:induction false} CompoundConcat(a: seq<real>, b: seq<real>)
    ensures Compound(a + b) == Times(Compound(a), Compound(b))
  {
    if b == [] {
      assert a + b == a;
    } else {
      assert (a + b)[..|a + b| - 1] == a + b[..|b| - 1];
      CompoundConcat(a, b[..|b| - 1]);
      Associate(Compound(a), Compound(b[..|b| - 1]), 1.0 + b[|b| - 1]);
    }
  }

  lemma Associate(x: real, y: real, z: real)
    ensures Times(Times(x, y), z) == Times(x, Times(y, z))
  {
  }

  /** One more window multiplies the compound by its growth. */
  lemma StitchOne(all: seq<real>, curves: seq<seq<real>>, k: nat)
    requires k < |curves| && forall c | c in curves :: Divisible(c)
    requires Compound(all) == TotalGrowth(curves[..k])
    ensures Compound(all + Returns(curves[k])) == TotalGrowth(curves[..k + 1])
  {
    assert curves[..k + 1][..k] == curves[..k];
    ReturnsTelescope(curves[k]);
    CompoundConcat(all, Returns(curves[k]));
  }

  method ConcatReturns(curves: seq<seq<real>>) returns (all: seq<real>)
    requires forall c | c in curves :: Divisible(c)
    ensures Compound(all) == TotalGrowth(curves)
    ensures all != [] <==> exists c | c in curves :: |c| > 1
  {
    all := [];
    for k := 0 to |curves|
      invariant Compound(all) == TotalGrowth(curves[..k])
      invariant all != [] <==> exists i | 0 <= i < k :: |curves[i]| > 1
    {
      StitchOne(all, curves, k);
      if |curves[k]| > 1 {
        all := all + Returns(curves[k]);
      } else {
        assert all + Returns(curves[k]) == all;
      }
    }
    assert curves[..|curves|] == curves;
  }

  method CompoundAll(rs: seq<real>) returns (product: real)
    ensures product == Compound(rs)
  {
    product := 1.0;
    for i := 0 to |rs|
      invariant product == Compound(rs[..i])
    {
      assert rs[..i + 1][..i] == rs[..i];
      product := Times(product, 1.0 + rs[i]);
    }
    assert rs[..|rs|] == rs;
  }

  /**
   The unrounded stitched return: the product over windows of last over first equity, minus one; None when
   no window has a second point.
   */
  method StitchedReturn(curves: seq<seq<real>>) returns (total: Option<real>)
    requires forall c | c in curves :: Divisible(c)
    ensures total.Some? <==> exists c | c in curves :: |c| > 1
    ensures total.Some? ==> total.value == TotalGrowth(curves) - 1.0
  {
    var all := ConcatReturns(curves);
    if all == [] {
      return None;
    }
    var product := CompoundAll(all);
    return Some(product - 1.0);
  }

  /** The out-of-sample equity curves, window for window. */
  function Curves(results: seq<(Params, Record)>): seq<seq<real>> {
    seq(|results|, i requires 0 <= i < |results| => results[i].1.curve)
  }

  lemma {:induction false} ScoreAt(h: Harness, cfg: Config, windows: seq<Window>, k: nat)
    requires k < |windows|
    ensures |ScoreAll(h, cfg, windows)| == |windows|
    ensures ScoreAll(h, cfg, windows)[k] == (h.optimize(windows[k].train), Score(h, cfg, windows[k]))
  {
    if k < |windows| - 1 {
      ScoreAt(h, cfg, windows[..|windows| - 1], k);
    } else {
      ScoreCount(h, cfg, windows[..|windows| - 1]);
    }
  }

  lemma {:induction false} ScoreCount(h: Harness, cfg: Config, windows: seq<Window>)
    ensures |ScoreAll(h, cfg, windows)| == |windows|
  {
    if windows != [] {
      ScoreCount(h, cfg, windows[..|windows| - 1]);
    }
  }

  /** A window's curve has one point per test bar. */
  lemma CurveCoversTest(h: Harness, cfg: Config, w: Window)
    ensures |Score(h, cfg, w).curve| == |w.test|
  {
    var setup := SetupFor(h, cfg, h.optimize(w.train));
    RunExtendsPrefix(w.test, |w.test|, setup);
    assert w.test[..|w.test|] == w.test;
  }

  lemma CurvesOf(h: Harness, cfg: Config, windows: seq<Window>)
    ensures var curves := Curves(ScoreAll(h, cfg, windows));
            && |curves| == |windows|
            && forall k | 0 <= k < |windows| ::
                 curves[k] == Score(h, cfg, windows[k]).curve && |curves[k]| == |windows[k].test|
  {
    ScoreCount(h, cfg, windows);
    forall k | 0 <= k < |windows|
      ensures Curves(ScoreAll(h, cfg, windows))[k] == Score(h, cfg, windows[k]).curve
      ensures |Score(h, cfg, windows[k]).curve| == |windows[k].test|
    {
      ScoreAt(h, cfg, windows, k);
      CurveCoversTest(h, cfg, windows[k]);
    }
  }

  /** No window's account is worth exactly nothing after a bar that is not its last. */
  ghost predicate NeverWorthless(bars: seq<Bar>, h: Harness, cfg: Config) {
    forall w | w in Windows(bars, cfg, 0) :: Divisible(Score(h, cfg, w).curve)
  }

  /** How much the accounts of all windows grew from their first bars on, one after another. */
  function WindowsGrowth(h: Harness, cfg: Config, windows: seq<Window>): real
    requires forall w | w in windows :: Divisible(Score(h, cfg, w).curve)
  {
    if windows == [] then 1.0
    else
      var last := windows[|windows| - 1];
      Times(WindowsGrowth(h, cfg, windows[..|windows| - 1]), Growth(Score(h, cfg, last).curve))
  }

  lemma {:induction false} GrowthOfCurves(h: Harness, cfg: Config, windows: seq<Window>, curves: seq<seq<real>>)
    requires |curves| == |windows|
    requires forall k | 0 <= k < |windows| :: curves[k] == Score(h, cfg, windows[k]).curve
    requires (forall w | w in windows :: Divisible(Score(h, cfg, w).curve)) && forall c | c in curves :: Divisible(c)
    ensures TotalGrowth(curves) == WindowsGrowth(h, cfg, windows)
  {
    if windows != [] {
      GrowthOfCurves(h, cfg, windows[..|windows| - 1], curves[..|curves| - 1]);
    }
  }

  /**
   The whole walk: roll the windows over the history, then stitch their returns. There is a figure if and only if
   some window tests on more than one bar, and it is the product of the windows' growths, less one.
   */
  method WalkForwardReturn(bars: seq<Bar>, h: Harness, cfg: Config) returns (total: Option<real>)
    requires NeverWorthless(bars, h, cfg)
    ensures total.Some? <==> exists w | w in Windows(bars, cfg, 0) :: |w.test| > 1
    ensures total.Some? ==> total.value == WindowsGrowth(h, cfg, Windows(bars, cfg, 0)) - 1.0
  {
    var results := RunWalkForward(bars, h, cfg);
    WalkIsScored(bars, h, cfg, results);
    ghost var windows := Windows(bars, cfg, 0);
    CurvesOf(h, cfg, windows);
    assert forall k | 0 <= k < |windows| :: windows[k] in windows;
    GrowthOfCurves(h, cfg, windows, Curves(results));
    total := StitchedReturn(Curves(results));
    SomeLongCurve(windows, Curves(results));
  }

  lemma SomeLongCurve(windows: seq<Window>, curves: seq<seq<real>>)
    requires |curves| == |windows| && forall k | 0 <= k < |windows| :: |curves[k]| == |windows[k].test|
    ensures (exists c | c in curves :: |c| > 1) <==> exists w | w in windows :: |w.test| > 1
  {
    if c :| c in curves && |c| > 1 {
      var k :| 0 <= k < |curves| && curves[k] == c;
      assert windows[k] in windows;
    }
    if w :| w in windows && |w.test| > 1 {
      var k :| 0 <= k < |windows| && windows[k] == w;
      assert curves[k] in curves;
    }
  }

  // ---- what the stitched return leaves out ----

  /** With realistic fills nothing can trade on a window's first bar, so its curve starts at the initial capital. */
  lemma DelayedWindowStartsAtCapital(bars: seq<Bar>, setup: Setup)
    requires bars != [] && setup.delayed
    ensures Run(bars, setup).record.curve != [] && Run(bars, setup).record.curve[0] == setup.initial
  {
    var first := bars[..1];
    assert first[..0] == [];
    BarStepExecutesOneAttempt(Start(setup.initial), first, setup);
    RunExtendsPrefix(bars, 1, setup);
    assert Run(first, setup).record.curve == [Equity(Account(setup.initial, 0.0, None), bars[0].close)];
  }

  /**
   A window's factor is its growth on the capital it was given exactly when its first equity point is that
   capital; otherwise the first bar's move, costs included, is missing from the stitched figure.
   */
  lemma FirstBarIsMissingUnlessFlat(curve: seq<real>, initial: real)
    requires Divisible(curve) && |curve| > 1 && initial > 0.0 && curve[|curve| - 1] != 0.0
    ensures Growth(curve) == curve[|curve| - 1] / initial <==> curve[0] == initial
  {
    var last, first := curve[|curve| - 1], curve[0];
    assert (last / first) * first == last && (last / initial) * initial == last;
    if last / first == last / initial {
      assert (last / first) * (first - initial) == 0.0;
    }
  }

  /** What the first bar of an immediate-fill window buys in USD, before the tolerance. */
  function FirstPurchase(order: Order, initial: real, gas: real): real {
    if order.sizeUsd > initial - gas + TOLERANCE then Max(initial - gas, 0.0) else order.sizeUsd
  }

  /** What `executed` USD, bought at the slipped price of an order of `size`, is worth less at the close. */
  function SlipLoss(executed: real, size: real, slip: real): real
    requires size + slip != 0.0
  {
    executed * slip / (size + slip)
  }

  lemma SlipLossSign(executed: real, size: real, slip: real)
    requires executed > 0.0 && size > 0.0 && slip >= 0.0
    ensures SlipLoss(executed, size, slip) >= 0.0 && (SlipLoss(executed, size, slip) == 0.0 <==> slip == 0.0)
  {
    var d, loss := size + slip, SlipLoss(executed, size, slip);
    assert loss * d == executed * slip;
    ScaledSign(slip, executed);
    NonNegativeRatio(executed * slip, d);
  }

  /** The first equity point of an immediate-fill window, and when nothing is bought on its bar. */
  lemma FirstBarOfImmediateWindow(bar: Bar, setup: Setup)
    requires !setup.delayed
    ensures Run([bar], setup).record.curve
         == [Equity(Execute(Account(setup.initial, 0.0, None), Start(setup.initial).record,
                            Attempt(Start(setup.initial), [bar], setup)).account, bar.close)]
  {
    assert [bar][..0] == [];
    BarStepExecutesOneAttempt(Start(setup.initial), [bar], setup);
  }

  lemma UnfilledOrderKeepsCapital(account: Account, record: Record, q: EngineLaws.Quote, close: real)
    requires account.units == 0.0
    requires q.order.side.Sell? || FirstPurchase(q.order, account.cash, q.costs.gas) <= TOLERANCE
    ensures Equity(ApplyOrder(account, record, q.order, q.price, q.costs).account, close) == account.cash
  {
    assert Worth(0.0, q.price) == 0.0;
  }

  /** Units bought at the slipped price, valued at the close. */
  lemma SlippedWorth(order: Order, executed: real, close: real, slip: real)
    requires close > 0.0 && order.side.Buy? && order.sizeUsd > 0.0 && slip >= 0.0
    ensures var p := SlippedPrice(order, close, slip);
            && p > 0.0
            && Worth(UnitsAt(executed, p), close) == executed - SlipLoss(executed, order.sizeUsd, slip)
  {
    var size := order.sizeUsd;
    var pct, p, u := slip / size, SlippedPrice(order, close, slip), UnitsAt(executed, SlippedPrice(order, close, slip));
    assert pct * size == slip;
    NonNegativeRatio(slip, size);
    assert p == close * (1.0 + pct);
    PositiveProduct(close, 1.0 + pct);
    UnitsTimesPrice(executed, p);
    SlippedValue(u, close, pct, size, slip, executed);
  }

  lemma NonNegativeRatio(x: real, y: real)
    requires x >= 0.0 && y > 0.0
    ensures x / y >= 0.0
  {
  }

  lemma PositiveProduct(x: real, y: real)
    requires x > 0.0 && y > 0.0
    ensures x * y > 0.0
  {
  }

  lemma SlippedValue(u: real, close: real, pct: real, size: real, slip: real, executed: real)
    requires u * (close * (1.0 + pct)) == executed && pct * size == slip && size > 0.0 && slip >= 0.0
    ensures u * close == executed - SlipLoss(executed, size, slip)
  {
    var v, d := u * close, size + slip;
    assert v * (1.0 + pct) == executed;
    assert v * (1.0 + pct) * size == v * d;
    assert v * d == executed * size;
    assert (executed * slip / d) * d == executed * slip;
    assert (executed - executed * slip / d) * d == executed * d - executed * slip == executed * size;
    UniqueQuotient(v, d, executed * size);
    UniqueQuotient(executed - executed * slip / d, d, executed * size);
  }

  /** An affordable buy on the first bar starts the curve lower by its costs and the slippage it paid. */
  lemma ImmediateWindowStartsBelowCapital(bar: Bar, setup: Setup, order: Order)
    requires bar.close > 0.0 && !setup.delayed
    requires setup.strategy([bar]) == Some(order) && order.side.Buy?
    requires var quoted := setup.cost(order, bar);
             quoted.slippage >= 0.0 && TOLERANCE < order.sizeUsd <= setup.initial - quoted.gas
    ensures var quoted := setup.cost(order, bar);
            Run([bar], setup).record.curve
            == [setup.initial - quoted.Total() - SlipLoss(order.sizeUsd, order.sizeUsd, quoted.slippage)]
  {
    var quoted := setup.cost(order, bar);
    FirstBarOfImmediateWindow(bar, setup);
    FirstBuy(Start(setup.initial), order, bar, quoted);
  }

  /** Equity after a filled first buy: what it cost, and what the slipped price lost at the close. */
  lemma FirstBuy(start: Sim, order: Order, bar: Bar, quoted: Costs)
    requires bar.close > 0.0 && order.side.Buy? && quoted.slippage >= 0.0 && start.account.units == 0.0
    requires TOLERANCE < FirstPurchase(order, start.account.cash, quoted.gas)
    ensures var e := FirstPurchase(order, start.account.cash, quoted.gas);
            var f := FillFor(order, SlippedPrice(order, bar.close, quoted.slippage), e, quoted);
            && 0.0 < e <= order.sizeUsd
            && Equity(ApplyOrder(start.account, start.record, order, f.price, quoted).account, bar.close)
               == start.account.cash - f.costs.Total() - SlipLoss(e, order.sizeUsd, quoted.slippage)
  {
    var e := FirstPurchase(order, start.account.cash, quoted.gas);
    var price := SlippedPrice(order, bar.close, quoted.slippage);
    SlippedWorth(order, e, bar.close, quoted.slippage);
    FirstBuySettles(start, order, price, e, quoted, bar.close);
  }

  lemma FirstBuySettles(start: Sim, order: Order, price: real, e: real, quoted: Costs, close: real)
    requires order.side.Buy? && start.account.units == 0.0
    requires e == FirstPurchase(order, start.account.cash, quoted.gas) > TOLERANCE
    ensures Equity(ApplyOrder(start.account, start.record, order, price, quoted).account, close)
         == start.account.cash - (e + FillFor(order, price, e, quoted).costs.Total()) + Worth(UnitsAt(e, price), close)
  {
    var a := ApplyOrder(start.account, start.record, order, price, quoted);
    assert a.executed == e && a.account == Settle(start.account, FillFor(order, price, e, quoted), e);
  }

  /** The scaled costs and the slippage paid are nothing exactly when the quote was. */
  lemma FreeIffQuoteFree(order: Order, price: real, e: real, quoted: Costs)
    requires 0.0 < e <= order.sizeUsd && quoted.fee >= 0.0 && quoted.gas >= 0.0 && quoted.slippage >= 0.0
    ensures var loss := FillFor(order, price, e, quoted).costs.Total() + SlipLoss(e, order.sizeUsd, quoted.slippage);
            loss >= 0.0 && (loss == 0.0 <==> quoted.Total() == 0.0)
  {
    SlipLossSign(e, order.sizeUsd, quoted.slippage);
    var cut := FillFor(order, price, e, quoted).costs;
    if e != order.sizeUsd {
      PositiveRatio(e, order.sizeUsd);
      ScaledSign(quoted.fee, e / order.sizeUsd);
      ScaledSign(quoted.slippage, e / order.sizeUsd);
    }
    FreeTogether(quoted, cut, SlipLoss(e, order.sizeUsd, quoted.slippage));
  }

  lemma FreeTogether(quoted: Costs, cut: Costs, loss: real)
    requires quoted.fee >= 0.0 && quoted.gas >= 0.0 && quoted.slippage >= 0.0 && loss >= 0.0
    requires cut.fee >= 0.0 && cut.slippage >= 0.0 && cut.gas == quoted.gas
    requires (cut.fee == 0.0 <==> quoted.fee == 0.0) && (cut.slippage == 0.0 <==> quoted.slippage == 0.0)
    requires loss == 0.0 <==> quoted.slippage == 0.0
    ensures cut.Total() + loss >= 0.0 && (cut.Total() + loss == 0.0 <==> quoted.Total() == 0.0)
  {
  }

  lemma PositiveRatio(x: real, y: real)
    requires x > 0.0 && y > 0.0
    ensures x / y > 0.0
  {
  }

  lemma ScaledSign(x: real, s: real)
    requires x >= 0.0 && s > 0.0
    ensures x * s >= 0.0 && s * x >= 0.0 && (x * s == 0.0 <==> x == 0.0)
  {
  }

  /**
   With costs that are never negative, an immediate-fill window starts at its capital if and only if its first
   bar orders nothing, sells, buys no more than the tolerance, or trades free of cost; otherwise it starts below.
   */
  lemma ImmediateWindowStartsAtCapitalIff(bars: seq<Bar>, setup: Setup)
    requires bars != [] && bars[0].close > 0.0 && !setup.delayed
    requires var order := setup.strategy(bars[..1]);
             order.Some? ==>
               var quoted := setup.cost(order.value, bars[0]);
               quoted.fee >= 0.0 && quoted.gas >= 0.0 && quoted.slippage >= 0.0
    ensures var order := setup.strategy(bars[..1]);
            var curve := Run(bars, setup).record.curve;
            && curve != [] && curve[0] <= setup.initial
            && (curve[0] == setup.initial <==>
                  || order.None? || order.value.side.Sell?
                  || FirstPurchase(order.value, setup.initial, setup.cost(order.value, bars[0]).gas) <= TOLERANCE
                  || setup.cost(order.value, bars[0]).Total() == 0.0)
  {
    assert bars[..1] == [bars[0]];
    RunExtendsPrefix(bars, 1, setup);
    FirstBarStartsAtCapitalIff(bars[0], setup);
  }

  lemma FirstBarStartsAtCapitalIff(bar: Bar, setup: Setup)
    requires bar.close > 0.0 && !setup.delayed
    requires var order := setup.strategy([bar]);
             order.Some? ==>
               var quoted := setup.cost(order.value, bar);
               quoted.fee >= 0.0 && quoted.gas >= 0.0 && quoted.slippage >= 0.0
    ensures var order := setup.strategy([bar]);
            var curve := Run([bar], setup).record.curve;
            && |curve| == 1 && curve[0] <= setup.initial
            && (curve[0] == setup.initial <==>
                  || order.None? || order.value.side.Sell?
                  || FirstPurchase(order.value, setup.initial, setup.cost(order.value, bar).gas) <= TOLERANCE
                  || setup.cost(order.value, bar).Total() == 0.0)
  {
    var order := setup.strategy([bar]);
    FirstBarOfImmediateWindow(bar, setup);
    if order.Some? {
      FirstOrder(Start(setup.initial), order.value, bar, setup.cost(order.value, bar));
    }
  }

  lemma FirstOrder(start: Sim, order: Order, bar: Bar, quoted: Costs)
    requires bar.close > 0.0 && start.account.units == 0.0
    requires quoted.fee >= 0.0 && quoted.gas >= 0.0 && quoted.slippage >= 0.0
    ensures var price := SlippedPrice(order, bar.close, quoted.slippage);
            var equity := Equity(ApplyOrder(start.account, start.record, order, price, quoted).account, bar.close);
            && equity <= start.account.cash
            && (equity == start.account.cash <==>
                  || order.side.Sell? || FirstPurchase(order, start.account.cash, quoted.gas) <= TOLERANCE
                  || quoted.Total() == 0.0)
  {
    var price := SlippedPrice(order, bar.close, quoted.slippage);
    var e := FirstPurchase(order, start.account.cash, quoted.gas);
    if order.side.Sell? || e <= TOLERANCE {
      UnfilledOrderKeepsCapital(start.account, start.record, EngineLaws.Quote(order, price, quoted), bar.close);
    } else {
      FirstBuy(start, order, bar, quoted);
      FreeIffQuoteFree(order, price, e, quoted);
    }
  }
}
