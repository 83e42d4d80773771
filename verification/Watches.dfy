/**
 Market watches: a one-bit edge trigger per watch, kept in the table the loop reads each cycle. Alerts
 over a run are the rising edges of the condition among the ticks at which it can be observed.
 */
module Watches {
  import opened Market

  datatype Kind = PriceWatch | RegimeWatch | DrawdownWatch | EquityWatch | UnknownKind

  datatype Op = Below | Above | OtherOp

  /** One row: what to observe, the bound or label to compare with, and whether it is armed as fired. */
  datatype Watch = Watch(kind: Kind, target: string, op: Op, threshold: real, fired: bool)

  datatype Snapshot = Snapshot(symbol: string, price: Option<real>, regime: Option<string>,
                               drawdownPct: Option<real>, equityUsd: Option<real>)

  function UpperChar(c: char): char {
    if 'a' <= c <= 'z' then (c as int - 32) as char else c
  }

  function Upper(s: string): string { seq(|s|, i requires 0 <= i < |s| => UpperChar(s[i])) }

  /** The numeric value a watch looks at, if this tick shows one. */
  function Current(w: Watch, s: Snapshot): Option<real> {
    match w.kind
    case PriceWatch => if w.target != "" && w.target != Upper(s.symbol) then None else s.price
    case DrawdownWatch => s.drawdownPct
    case EquityWatch => s.equityUsd
    case _ => None
  }

  predicate Holds(op: Op, value: real, threshold: real) {
    match op
    case Below => value < threshold
    case Above => value > threshold
    case OtherOp => false
  }

  /** Whether the condition holds at this tick; None if it cannot be observed. A missing regime reads as "NONE". */
  function Observed(w: Watch, s: Snapshot): Option<bool> {
    if w.kind.RegimeWatch? then
      Some(Upper(if s.regime.Some? then s.regime.value else "None") == Upper(w.target))
    else
      var current := Current(w, s);
      if current.None? then None else Some(Holds(w.op, current.value, w.threshold))
  }

  datatype Change = Fire | Rearm

  /** The edge trigger: a change only when the condition disagrees with the stored bit. */
  function Evaluate(w: Watch, s: Snapshot): Option<Change> {
    var seen := Observed(w, s);
    if seen.None? || seen.value == w.fired then None else Some(if seen.value then Fire else Rearm)
  }

  /** The stored row after a tick; `saved` says whether a write to the table arrives. */
  function After(w: Watch, s: Snapshot, saved: bool): Watch {
    var change := Evaluate(w, s);
    if change.None? || !saved then w else w.(fired := change.value.Fire?)
  }

  class WatchTable {
    var rows: seq<Watch>

    constructor (rows: seq<Watch>)
      ensures this.rows == rows
    {
      this.rows := rows;
    }

    /** One tick over every row, in order: which rows alert, and the table left behind. */
    method Process(s: Snapshot, saved: nat -> bool) returns (alerts: seq<nat>)
      modifies this
      ensures |rows| == |old(rows)|
      ensures forall k | 0 <= k < |rows| :: rows[k] == After(old(rows)[k], s, saved(k))
      ensures forall i, j | 0 <= i < j < |alerts| :: alerts[i] < alerts[j]
      ensures forall k: nat :: k in alerts <==> k < |rows| && Evaluate(old(rows)[k], s) == Some(Fire)
    {
      alerts := [];
      var k := 0;
      while k < |rows|
        invariant k <= |rows| == |old(rows)|
        invariant forall i | 0 <= i < k :: rows[i] == After(old(rows)[i], s, saved(i))
        invariant forall i | k <= i < |rows| :: rows[i] == old(rows)[i]
        invariant forall i, j | 0 <= i < j < |alerts| :: alerts[i] < alerts[j]
        invariant forall i | 0 <= i < |alerts| :: alerts[i] < k
        invariant forall i: nat :: i in alerts <==> i < k && Evaluate(old(rows)[i], s) == Some(Fire)
      {
        var change := Evaluate(rows[k], s);
        if change.Some? {
          if saved(k) {
            rows := rows[k := rows[k].(fired := change.value.Fire?)];
          }
          if change.value.Fire? {
            alerts := alerts + [k];
          }
        }
        k := k + 1;
      }
    }
  }

  // ---- runs of one row ----

  /** A tick of a run: what was seen, and whether this row's write would arrive. */
  datatype Tick = Tick(snapshot: Snapshot, saved: bool)

  function RowAfter(w: Watch, ticks: seq<Tick>): Watch {
    if ticks == [] then w
    else
      var last := ticks[|ticks| - 1];
      After(RowAfter(w, ticks[..|ticks| - 1]), last.snapshot, last.saved)
  }

  predicate FiresAt(w: Watch, ticks: seq<Tick>, i: nat)
    requires i < |ticks|
  {
    Evaluate(RowAfter(w, ticks[..i]), ticks[i].snapshot) == Some(Fire)
  }

  /** The condition was observed at tick j with the given truth, and not again before tick i. */
  ghost predicate LastSeen(w: Watch, ticks: seq<Tick>, j: nat, i: nat, truth: bool)
    requires i <= |ticks|
  {
    && j < i && Observed(w, ticks[j].snapshot) == Some(truth)
    && forall m | j < m < i :: Observed(w, ticks[m].snapshot).None?
  }

  /** True now, and false when last observed, or never observed before. */
  ghost predicate RisingEdge(w: Watch, ticks: seq<Tick>, i: nat)
    requires i < |ticks|
  {
    && Observed(w, ticks[i].snapshot) == Some(true)
    && !exists j: nat :: LastSeen(w, ticks, j, i, true)
  }

  /** Only the bit of a row ever moves, so what it observes does not depend on the run. */
  lemma {:induction false} RowKeepsTerms(w: Watch, ticks: seq<Tick>)
    ensures RowAfter(w, ticks) == w.(fired := RowAfter(w, ticks).fired)
    ensures forall s :: Observed(RowAfter(w, ticks), s) == Observed(w, s)
  {
    if ticks != [] {
      RowKeepsTerms(w, ticks[..|ticks| - 1]);
    }
  }

  predicate AllSaved(ticks: seq<Tick>) { forall t | t in ticks :: t.saved }

  lemma SavedPrefix(ticks: seq<Tick>, i: nat)
    requires 0 < i <= |ticks| && AllSaved(ticks[..i])
    ensures AllSaved(ticks[..i - 1])
  {
    assert ticks[..i - 1] == ticks[..i][..i - 1];
  }

  /** With every write arriving, the bit is the truth last observed, false before any. */
  lemma {:induction false} BitIsLastSeen(w: Watch, ticks: seq<Tick>, i: nat)
    requires i <= |ticks| && !w.fired && AllSaved(ticks[..i])
    ensures RowAfter(w, ticks[..i]).fired <==> exists j: nat :: LastSeen(w, ticks, j, i, true)
  {
    if i > 0 {
      assert ticks[..i][..i - 1] == ticks[..i - 1];
      assert ticks[..i][i - 1].saved;
      SavedPrefix(ticks, i);
      BitIsLastSeen(w, ticks, i - 1);
      RowKeepsTerms(w, ticks[..i - 1]);
      var seen := Observed(w, ticks[i - 1].snapshot);
      if seen == Some(true) {
        assert LastSeen(w, ticks, i - 1, i, true);
      } else if seen.None? {
        SeenStays(w, ticks, i - 1, i);
      }
    }
  }

  lemma SeenStays(w: Watch, ticks: seq<Tick>, h: nat, i: nat)
    requires h + 1 == i <= |ticks| && Observed(w, ticks[h].snapshot).None?
    ensures (exists j: nat :: LastSeen(w, ticks, j, i, true)) <==> exists j: nat :: LastSeen(w, ticks, j, h, true)
  {
    if j: nat :| LastSeen(w, ticks, j, i, true) {
      assert LastSeen(w, ticks, j, h, true);
    }
    if j: nat :| LastSeen(w, ticks, j, h, true) {
      assert LastSeen(w, ticks, j, i, true);
    }
  }

  /** If every write arrives, a fresh watch alerts at exactly the rising edges of its observable condition. */
  lemma AlertsAreRisingEdges(w: Watch, ticks: seq<Tick>, i: nat)
    requires i < |ticks| && !w.fired && AllSaved(ticks[..i])
    ensures FiresAt(w, ticks, i) <==> RisingEdge(w, ticks, i)
  {
    BitIsLastSeen(w, ticks, i);
    RowKeepsTerms(w, ticks[..i]);
  }

  // ---- what is observed ----

  /** The tick shows the watch this number: its own symbol's price, or any if it names none; drawdown; equity. */
  predicate Sees(w: Watch, s: Snapshot, value: real) {
    match w.kind
    case PriceWatch => s.price == Some(value) && (w.target == "" || w.target == Upper(s.symbol))
    case DrawdownWatch => s.drawdownPct == Some(value)
    case EquityWatch => s.equityUsd == Some(value)
    case _ => false
  }

  predicate Crosses(w: Watch, value: real) {
    (w.op.Below? && value < w.threshold) || (w.op.Above? && value > w.threshold)
  }

  ghost predicate Shown(w: Watch, s: Snapshot) { exists value :: Sees(w, s, value) }

  ghost predicate Beyond(w: Watch, s: Snapshot) { exists value :: Sees(w, s, value) && Crosses(w, value) }

  lemma NumbersAreCompared(w: Watch, s: Snapshot)
    requires !w.kind.RegimeWatch?
    ensures Observed(w, s).Some? <==> Shown(w, s)
    ensures Observed(w, s) == Some(true) <==> Beyond(w, s)
  {
    if Observed(w, s).Some? {
      assert Sees(w, s, Current(w, s).value);
    }
  }

  /**
   A watch on a number, fresh and with its writes arriving, alerts at exactly the ticks whose number is beyond the
   bound while the one shown last before was not, or none was.
   */
  lemma AlertsAreCrossings(w: Watch, ticks: seq<Tick>, i: nat)
    requires !w.kind.RegimeWatch? && i < |ticks| && !w.fired && AllSaved(ticks[..i])
    ensures FiresAt(w, ticks, i) <==>
              && Beyond(w, ticks[i].snapshot)
              && forall j | 0 <= j < i && Beyond(w, ticks[j].snapshot) ::
                   exists m :: j < m < i && Shown(w, ticks[m].snapshot)
  {
    AlertsAreRisingEdges(w, ticks, i);
    forall m | 0 <= m < |ticks|
      ensures Observed(w, ticks[m].snapshot).Some? <==> Shown(w, ticks[m].snapshot)
      ensures Observed(w, ticks[m].snapshot) == Some(true) <==> Beyond(w, ticks[m].snapshot)
    {
      NumbersAreCompared(w, ticks[m].snapshot);
    }
    if j :| 0 <= j < i && Beyond(w, ticks[j].snapshot) && !exists m :: j < m < i && Shown(w, ticks[m].snapshot) {
      assert LastSeen(w, ticks, j, i, true);
    }
  }

  /** One letter is the other but for its case. */
  predicate SameLetter(c: char, d: char) {
    c == d || ('a' <= c <= 'z' && d as int == c as int - 32) || ('a' <= d <= 'z' && c as int == d as int - 32)
  }

  ghost predicate SameWord(a: string, b: string) {
    |a| == |b| && forall i | 0 <= i < |a| :: SameLetter(a[i], b[i])
  }

  lemma UpperIgnoresCase(a: string, b: string)
    ensures Upper(a) == Upper(b) <==> SameWord(a, b)
  {
    if Upper(a) == Upper(b) {
      assert |a| == |Upper(a)| == |b|;
      forall i | 0 <= i < |a|
        ensures SameLetter(a[i], b[i])
      {
        assert UpperChar(a[i]) == Upper(a)[i] == Upper(b)[i] == UpperChar(b[i]);
      }
    }
  }

  /** A regime is compared with the watch's label but for case, and a missing one reads "None". */
  lemma RegimesAreCompared(w: Watch, s: Snapshot)
    requires w.kind.RegimeWatch?
    ensures Observed(w, s) == Some(SameWord(if s.regime.None? then "None" else s.regime.value, w.target))
  {
    UpperIgnoresCase(if s.regime.None? then "None" else s.regime.value, w.target);
  }

  // ---- writes that are lost ----

  lemma RowNext(w: Watch, ticks: seq<Tick>, i: nat)
    requires i < |ticks|
    ensures RowAfter(w, ticks[..i + 1]) == After(RowAfter(w, ticks[..i]), ticks[i].snapshot, ticks[i].saved)
  {
    assert ticks[..i + 1][..i] == ticks[..i];
  }

  /** An alert repeats on the next tick that still shows the condition exactly when its own write was lost. */
  lemma AlertRepeatsIffWriteLost(w: Watch, ticks: seq<Tick>, i: nat)
    requires i + 1 < |ticks| && FiresAt(w, ticks, i)
    requires Observed(w, ticks[i + 1].snapshot) == Some(true)
    ensures FiresAt(w, ticks, i + 1) <==> !ticks[i].saved
  {
    RowNext(w, ticks, i);
    RowKeepsTerms(w, ticks[..i]);
    RowKeepsTerms(w, ticks[..i + 1]);
  }

  /** Between two alerts of a watch whose first write arrived, its condition was seen false and that was saved. */
  lemma {:induction false} TwoAlertsNeedAFall(w: Watch, ticks: seq<Tick>, i: nat, j: nat)
    requires i < j < |ticks| && FiresAt(w, ticks, i) && FiresAt(w, ticks, j) && ticks[i].saved
    ensures exists k | i < k < j :: Observed(w, ticks[k].snapshot) == Some(false) && ticks[k].saved
  {
    if forall k | i < k < j :: Observed(w, ticks[k].snapshot) == Some(false) ==> !ticks[k].saved {
      RowNext(w, ticks, i);
      StaysFired(w, ticks, i, j);
    }
  }

  lemma {:induction false} StaysFired(w: Watch, ticks: seq<Tick>, i: nat, j: nat)
    requires i < j < |ticks| && RowAfter(w, ticks[..i + 1]).fired
    requires forall k | i < k < j :: Observed(w, ticks[k].snapshot) == Some(false) ==> !ticks[k].saved
    ensures RowAfter(w, ticks[..j]).fired
    decreases j - i
  {
    if i + 1 < j {
      StaysFired(w, ticks, i, j - 1);
      RowNext(w, ticks, j - 1);
      RowKeepsTerms(w, ticks[..j - 1]);
    }
  }
}
