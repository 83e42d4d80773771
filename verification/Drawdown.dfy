/**
 The scorecard's one-pass scans of an equity curve, against their all-pairs meanings: the deepest fall
 from any earlier value, and the longest time below a prior peak.
 */
module Drawdown {
  import opened Market

  function RunningMax(curve: seq<real>, i: nat): real
    requires i < |curve|
  {
    if i == 0 then curve[0] else Max(RunningMax(curve, i - 1), curve[i])
  }

  /** Relative change from point j to point i. */
  function Change(curve: seq<real>, j: nat, i: nat): real
    requires j < |curve| && i < |curve| && curve[j] > 0.0
  {
    (curve[i] - curve[j]) / curve[j]
  }

  /** The account starts with something, so every running maximum is positive. */
  ghost predicate Funded(curve: seq<real>) { curve != [] ==> curve[0] > 0.0 }

  lemma {:induction false} RunningMaxIsAttained(curve: seq<real>, i: nat) returns (j: nat)
    requires i < |curve|
    ensures j <= i && curve[j] == RunningMax(curve, i)
    ensures forall k | 0 <= k <= i :: curve[k] <= RunningMax(curve, i)
    decreases i
  {
    j := i;
    if i > 0 {
      var k := RunningMaxIsAttained(curve, i - 1);
      if RunningMax(curve, i - 1) >= curve[i] {
        j := k;
      }
    }
  }

  /** Falling to a non-negative `low` is deeper from a higher start, to a negative one from a lower start. */
  lemma HigherStartFallsDeeper(low: real, start: real, higher: real)
    requires 0.0 < start <= higher
    ensures low >= 0.0 ==> (low - higher) / higher <= (low - start) / start
    ensures low <= 0.0 ==> (low - start) / start <= (low - higher) / higher
  {
    var a, b := low / start, low / higher;
    assert a * start == low && b * higher == low;
    assert (a - b) * start == b * (higher - start);
    QuotientSign(low, higher);
    ChangeIsRatio(low, higher);
    ChangeIsRatio(low, start);
    if low >= 0.0 {
      assert (a - b) * start >= 0.0;
      NonNegativeFactor(a - b, start);
    }
    if low <= 0.0 {
      assert (b - a) * start >= 0.0;
      NonNegativeFactor(b - a, start);
    }
  }

  lemma ChangeIsRatio(low: real, start: real)
    requires start > 0.0
    ensures (low - start) / start == low / start - 1.0
  {
    assert (low / start) * start == low;
    SameProduct((low - start) / start, low / start - 1.0, start);
  }

  lemma SameProduct(x: real, y: real, s: real)
    requires s > 0.0 && x * s == y * s
    ensures x == y
  {
    NonNegativeFactor(x - y, s);
    NonNegativeFactor(y - x, s);
  }

  lemma QuotientSign(x: real, y: real)
    requires y > 0.0
    ensures x >= 0.0 ==> x / y >= 0.0
    ensures x <= 0.0 ==> x / y <= 0.0
  {
    var q := x / y;
    assert q * y == x;
    if x >= 0.0 {
      NonNegativeFactor(q, y);
    }
    if x <= 0.0 {
      NonNegativeFactor(-q, y);
    }
  }

  lemma NonNegativeFactor(d: real, s: real)
    requires d * s >= 0.0 && s > 0.0
    ensures d >= 0.0
  {
  }

  /** No fall from an earlier positive point is deeper. */
  ghost predicate DeepestOfAll(curve: seq<real>, worst: real, n: nat) {
    forall i: nat, j: nat | j <= i < n && i < |curve| && curve[j] > 0.0 :: worst <= Change(curve, j, i)
  }

  /** Point j is a positive running maximum at point i. */
  predicate Tops(curve: seq<real>, j: nat, i: nat) {
    j <= i < |curve| && curve[j] > 0.0 && curve[j] == RunningMax(curve, i)
  }

  /** No fall below the running maximum is deeper, and one is as deep. */
  ghost predicate DeepestFromMax(curve: seq<real>, worst: real, n: nat) {
    && (exists i: nat, j: nat :: i < n && Tops(curve, j, i) && worst == Change(curve, j, i))
    && forall i: nat, j: nat | i < n && Tops(curve, j, i) :: worst <= Change(curve, j, i)
  }

  /** The deepest fall below the running maximum, for every curve that starts above zero. */
  method MaxDrawdown(curve: seq<real>) returns (worst: real)
    requires Funded(curve)
    ensures |curve| < 2 ==> worst == 0.0
    ensures |curve| >= 2 ==> DeepestFromMax(curve, worst, |curve|)
    ensures (forall i | 0 <= i < |curve| :: curve[i] >= 0.0) ==> DeepestOfAll(curve, worst, |curve|)
  {
    worst := 0.0;
    if |curve| < 2 {
      assert curve != [] ==> Change(curve, 0, 0) == 0.0;
      return;
    }
    var peak := curve[0];
    assert Tops(curve, 0, 0) && worst == Change(curve, 0, 0);
    for i := 1 to |curve|
      invariant peak == RunningMax(curve, i - 1) && peak > 0.0
      invariant DeepestFromMax(curve, worst, i)
    {
      if curve[i] > peak {
        peak := curve[i];
      }
      var top := RunningMaxIsAttained(curve, i);
      var fall := (curve[i] - peak) / peak;
      assert fall == Change(curve, top, i);
      OneMoreFall(curve, worst, i, top);
      if fall < worst {
        worst := fall;
      }
    }
    ScanIsAllPairsIff(curve, worst);
  }

  lemma OneMoreFall(curve: seq<real>, worst: real, i: nat, top: nat)
    requires DeepestFromMax(curve, worst, i) && Tops(curve, top, i)
    ensures DeepestFromMax(curve, if Change(curve, top, i) < worst then Change(curve, top, i) else worst, i + 1)
  {
    var deeper := if Change(curve, top, i) < worst then Change(curve, top, i) else worst;
    forall a: nat, b: nat | a < i + 1 && Tops(curve, b, a)
      ensures deeper <= Change(curve, b, a)
    {
      if a == i {
        assert curve[b] == curve[top];
      }
    }
    var a: nat, b: nat :| a < i && Tops(curve, b, a) && worst == Change(curve, b, a);
    if Change(curve, top, i) < worst {
      assert Tops(curve, top, i) && deeper == Change(curve, top, i);
    } else {
      assert Tops(curve, b, a) && deeper == Change(curve, b, a);
    }
  }

  /** The earliest smallest positive point up to i. */
  function Lowest(curve: seq<real>, i: nat): (j: nat)
    requires i < |curve| && curve[0] > 0.0
    ensures j <= i && curve[j] > 0.0
    ensures forall k | 0 <= k <= i && curve[k] > 0.0 :: curve[j] <= curve[k]
  {
    if i == 0 then 0
    else
      var j := Lowest(curve, i - 1);
      if 0.0 < curve[i] < curve[j] then i else j
  }

  /**
   The scan is the deepest fall over all pairs if and only if no point below zero is a deeper fall from the
   lowest positive point before it - in particular for every curve that never goes below zero.
   */
  lemma ScanIsAllPairsIff(curve: seq<real>, worst: real)
    requires |curve| >= 2 && Funded(curve) && DeepestFromMax(curve, worst, |curve|)
    ensures DeepestOfAll(curve, worst, |curve|)
        <==> forall i: nat | i < |curve| && curve[i] < 0.0 :: worst <= Change(curve, Lowest(curve, i), i)
  {
    if forall i: nat | i < |curve| && curve[i] < 0.0 :: worst <= Change(curve, Lowest(curve, i), i) {
      forall i: nat, j: nat | j <= i < |curve| && curve[j] > 0.0
        ensures worst <= Change(curve, j, i)
      {
        PairIsNoDeeper(curve, j, i);
        var top := RunningMaxIsAttained(curve, i);
        assert Tops(curve, top, i);
      }
    }
  }

  lemma PairIsNoDeeper(curve: seq<real>, j: nat, i: nat)
    requires Funded(curve) && j <= i < |curve| && curve[j] > 0.0
    ensures curve[i] < 0.0 ==> Change(curve, Lowest(curve, i), i) <= Change(curve, j, i)
    ensures curve[i] >= 0.0 ==> forall top: nat | Tops(curve, top, i) :: Change(curve, top, i) <= Change(curve, j, i)
  {
    if curve[i] < 0.0 {
      HigherStartFallsDeeper(curve[i], curve[Lowest(curve, i)], curve[j]);
    } else {
      var top := RunningMaxIsAttained(curve, i);
      HigherStartFallsDeeper(curve[i], curve[j], curve[top]);
    }
  }

  /** Below zero the two differ: after 1, 10 and -1 the scan says 1.1 times the peak, from the start it is twice. */
  lemma NegativeEquityBreaksAllPairs(worst: real)
    requires DeepestFromMax([1.0, 10.0, -1.0], worst, 3)
    ensures !DeepestOfAll([1.0, 10.0, -1.0], worst, 3)
  {
    var curve := [1.0, 10.0, -1.0];
    assert RunningMax(curve, 0) == 1.0;
    assert RunningMax(curve, 1) == 10.0;
    assert RunningMax(curve, 2) == 10.0;
    assert Change(curve, 1, 2) == -1.1 && Change(curve, 0, 2) == -2.0;
    assert Tops(curve, 1, 2);
    assert Change(curve, 0, 0) == 0.0 && Change(curve, 1, 1) == 0.0;
  }

  // ---- duration ----

  ghost predicate NonDecreasing(ts: seq<int>) {
    forall i, j | 0 <= i < j < |ts| :: ts[i] <= ts[j]
  }

  /** From point j to point i: everything strictly between stayed below point j. */
  ghost predicate Spell(curve: seq<real>, j: nat, i: nat) {
    j < i < |curve| && forall k | j < k < i :: curve[k] < curve[j]
  }

  /** Every spell inside the first n points is at most `longest`. */
  ghost predicate Bounds(curve: seq<real>, ts: seq<int>, longest: int, n: nat)
    requires |ts| == |curve|
  {
    forall i, j | 0 <= j < i < n && Spell(curve, j, i) :: ts[i] - ts[j] <= longest
  }

  /** The open spell starts at the last highest point. */
  ghost predicate AtPeak(curve: seq<real>, p: nat, n: nat) {
    && p < n <= |curve|
    && (forall k | 0 <= k < p :: curve[k] <= curve[p])
    && (forall k | p < k < n :: curve[k] < curve[p])
  }

  /** The longest spell of a curve, for time stamps in order. */
  ghost predicate IsLongestSpell(curve: seq<real>, ts: seq<int>, longest: int)
    requires |ts| == |curve|
  {
    && Bounds(curve, ts, longest, |curve|)
    && exists i, j | 0 <= j < i < |curve| && Spell(curve, j, i) :: longest == ts[i] - ts[j]
  }

  /** The unrounded duration in milliseconds; None when the stamps do not match the curve or it has no second point. */
  method LongestSpell(curve: seq<real>, stamps: Option<seq<int>>) returns (duration: Option<int>)
    ensures duration.Some? <==> stamps.Some? && |stamps.value| == |curve| >= 2
    ensures duration.Some? && NonDecreasing(stamps.value) ==> IsLongestSpell(curve, stamps.value, duration.value)
  {
    if stamps.None? || |stamps.value| != |curve| || |curve| < 2 {
      return None;
    }
    var ts := stamps.value;
    var peak, peakTs, longest := curve[0], ts[0], 0;
    ghost var p, found, ordered := 0, false, NonDecreasing(ts);
    for i := 1 to |curve|
      invariant AtPeak(curve, p, i) && peak == curve[p] && peakTs == ts[p]
      invariant p > 0 ==> found
      invariant found && ordered ==> exists a, b | 0 <= b < a < i && Spell(curve, b, a) :: longest == ts[a] - ts[b]
      invariant !found ==> longest == 0
      invariant ordered ==> longest >= 0 && Bounds(curve, ts, longest, p + 1)
    {
      if curve[i] >= peak {
        assert Spell(curve, p, i);
        if ordered {
          ExtendToRecovery(curve, ts, longest, p, i);
        }
        if ts[i] - peakTs > longest {
          longest := ts[i] - peakTs;
        }
        found := true;
        peak, peakTs := curve[i], ts[i];
        p := i;
      }
    }
    var last := |curve| - 1;
    if curve[last] < peak {
      assert Spell(curve, p, last);
      if ordered {
        ExtendToRecovery(curve, ts, longest, p, last);
      }
      if ts[last] - peakTs > longest {
        longest := ts[last] - peakTs;
      }
    }
    return Some(longest);
  }

  /** The spells of the first i + 1 points: those up to the peak, and those inside the episode since. */
  lemma ExtendToRecovery(curve: seq<real>, ts: seq<int>, longest: int, p: nat, i: nat)
    requires |ts| == |curve| && NonDecreasing(ts) && p < i < |curve|
    requires AtPeak(curve, p, i) && Bounds(curve, ts, longest, p + 1)
    ensures Bounds(curve, ts, if ts[i] - ts[p] > longest then ts[i] - ts[p] else longest, i + 1)
  {
    var bound := if ts[i] - ts[p] > longest then ts[i] - ts[p] else longest;
    forall a, b | 0 <= b < a < i + 1 && Spell(curve, b, a)
      ensures ts[a] - ts[b] <= bound
    {
      if b < p {
        assert curve[b] <= curve[p];
        assert a <= p;
      } else {
        assert ts[p] <= ts[b] && ts[a] <= ts[i];
      }
    }
  }

  /**
   The figure includes the bar that recovers: on a curve that never falls, where no time is spent below a
   prior peak, it is the largest gap between neighbouring points rather than zero.
   */
  lemma RisingCurveStillHasDuration(curve: seq<real>, ts: seq<int>, longest: int)
    requires |ts| == |curve| && |curve| >= 2 && NonDecreasing(ts)
    requires forall i, j | 0 <= i < j < |curve| :: curve[i] <= curve[j]
    requires IsLongestSpell(curve, ts, longest)
    ensures exists i | 0 < i < |curve| :: longest == ts[i] - ts[i - 1]
    ensures forall i | 0 < i < |curve| :: ts[i] - ts[i - 1] <= longest
  {
    var i, j :| 0 <= j < i < |curve| && Spell(curve, j, i) && longest == ts[i] - ts[j];
    assert curve[j] <= curve[j + 1];
    assert i == j + 1;
    forall k | 0 < k < |curve|
      ensures ts[k] - ts[k - 1] <= longest
    {
      assert Spell(curve, k - 1, k);
    }
  }

  /** A spell that spends time below its peak: the point after the peak is lower. */
  ghost predicate UnderWater(curve: seq<real>, j: nat, i: nat) {
    Spell(curve, j, i) && curve[j + 1] < curve[j]
  }

  ghost predicate AnyUnderWater(curve: seq<real>) { exists j: nat, i: nat :: UnderWater(curve, j, i) }

  /** The longest time below a prior peak; zero if the curve never falls. */
  ghost predicate IsTimeUnderWater(curve: seq<real>, ts: seq<int>, duration: int)
    requires |ts| == |curve|
  {
    && (forall j: nat, i: nat | UnderWater(curve, j, i) :: ts[i] - ts[j] <= duration)
    && if AnyUnderWater(curve) then exists j: nat, i: nat :: UnderWater(curve, j, i) && duration == ts[i] - ts[j]
       else duration == 0
  }

  /** Point i does not fall from its predecessor. */
  predicate Holds(curve: seq<real>, i: nat) { 0 < i < |curve| && curve[i - 1] <= curve[i] }

  /** Some spell under water lasts at least as long as every step that does not fall. */
  ghost predicate OutlastsSteps(curve: seq<real>, ts: seq<int>)
    requires |ts| == |curve|
  {
    exists j: nat, i: nat :: UnderWater(curve, j, i) &&
      forall k: nat | Holds(curve, k) :: ts[k] - ts[k - 1] <= ts[i] - ts[j]
  }

  /**
   The scan's figure is the longest time below a prior peak if and only if some spell under water outlasts every
   step that does not fall, or the curve never falls and all its points carry one time.
   */
  lemma DurationIsTimeUnderWaterIff(curve: seq<real>, ts: seq<int>, longest: int)
    requires |ts| == |curve| && |curve| >= 2 && NonDecreasing(ts) && IsLongestSpell(curve, ts, longest)
    ensures IsTimeUnderWater(curve, ts, longest)
        <==> OutlastsSteps(curve, ts) || (!AnyUnderWater(curve) && forall k | 0 <= k < |ts| :: ts[k] == ts[0])
  {
    if AnyUnderWater(curve) {
      UnderWaterIffOutlasts(curve, ts, longest);
    } else {
      NeverFalls(curve, ts, longest);
    }
  }

  lemma SpellsAreStepsOrUnder(curve: seq<real>, j: nat, i: nat)
    requires Spell(curve, j, i)
    ensures UnderWater(curve, j, i) || (i == j + 1 && Holds(curve, i))
  {
  }

  lemma UnderWaterIffOutlasts(curve: seq<real>, ts: seq<int>, longest: int)
    requires |ts| == |curve| && NonDecreasing(ts) && IsLongestSpell(curve, ts, longest) && AnyUnderWater(curve)
    ensures IsTimeUnderWater(curve, ts, longest) <==> OutlastsSteps(curve, ts)
  {
    StepsAreSpells(curve, ts, longest);
    if OutlastsSteps(curve, ts) {
      LongestIsUnderWater(curve, ts, longest);
    }
  }

  lemma StepsAreSpells(curve: seq<real>, ts: seq<int>, longest: int)
    requires |ts| == |curve| && Bounds(curve, ts, longest, |curve|)
    ensures forall k: nat | Holds(curve, k) :: ts[k] - ts[k - 1] <= longest
    ensures forall j: nat, i: nat | UnderWater(curve, j, i) :: ts[i] - ts[j] <= longest
  {
    forall k: nat | Holds(curve, k)
      ensures ts[k] - ts[k - 1] <= longest
    {
      assert Spell(curve, k - 1, k);
    }
  }

  lemma LongestIsUnderWater(curve: seq<real>, ts: seq<int>, longest: int)
    requires |ts| == |curve| && IsLongestSpell(curve, ts, longest) && OutlastsSteps(curve, ts)
    ensures exists j: nat, i: nat :: UnderWater(curve, j, i) && longest == ts[i] - ts[j]
  {
    StepsAreSpells(curve, ts, longest);
    var j: nat, i: nat :| UnderWater(curve, j, i) &&
      forall k: nat | Holds(curve, k) :: ts[k] - ts[k - 1] <= ts[i] - ts[j];
    var a: nat, b: nat :| b < a < |curve| && Spell(curve, b, a) && longest == ts[a] - ts[b];
    SpellsAreStepsOrUnder(curve, b, a);
    if UnderWater(curve, b, a) {
      assert UnderWater(curve, b, a) && longest == ts[a] - ts[b];
    } else {
      assert Holds(curve, a) && b == a - 1;
      assert ts[a] - ts[a - 1] <= ts[i] - ts[j];
      assert UnderWater(curve, j, i) && longest == ts[i] - ts[j];
    }
  }

  lemma NeverFalls(curve: seq<real>, ts: seq<int>, longest: int)
    requires |ts| == |curve| && |curve| >= 2 && NonDecreasing(ts) && IsLongestSpell(curve, ts, longest)
    requires !AnyUnderWater(curve)
    ensures IsTimeUnderWater(curve, ts, longest) <==> forall k | 0 <= k < |ts| :: ts[k] == ts[0]
  {
    assert IsTimeUnderWater(curve, ts, longest) <==> longest == 0;
    forall k | 0 < k < |curve|
      ensures ts[k] - ts[k - 1] <= longest
    {
      assert Spell(curve, k - 1, k);
    }
    if longest == 0 {
      StepsAdd(ts, |ts| - 1);
    }
  }

  lemma {:induction false} StepsAdd(ts: seq<int>, n: nat)
    requires n < |ts| && NonDecreasing(ts) && forall k | 0 < k <= n :: ts[k] - ts[k - 1] <= 0
    ensures forall k | 0 <= k <= n :: ts[k] == ts[0]
  {
    if n > 0 {
      StepsAdd(ts, n - 1);
      assert ts[n - 1] <= ts[n] && ts[n] - ts[n - 1] <= 0;
    }
  }
}
