/**
 Point-in-time joins of market data: each bar gets the last reading at or before it. The funding merge
 walks a pointer, the sentiment and open-interest merges search by bisection; all three are tied to one
 specification on the unsorted readings.
 */
module AsOfJoin {
  import opened Market
  import opened Ordering

  const HOUR_MS: int := 3_600_000
  const PAGE: nat := 1000

  datatype Reading = Reading(time: int, value: real)

  function TimeOf(r: Reading): int { r.time }

  /** A later-or-equal reading within reach replaces the best so far. */
  function Better(best: Option<Reading>, r: Reading, ts: int): Option<Reading> {
    if r.time <= ts && (best.None? || best.value.time <= r.time) then Some(r) else best
  }

  /** The last reading at or before `ts`; of equal times, the one listed last. */
  function Latest(rows: seq<Reading>, ts: int): Option<Reading> {
    if rows == [] then None else Better(Latest(rows[..|rows| - 1], ts), rows[|rows| - 1], ts)
  }

  function AsOf(rows: seq<Reading>, ts: int): real {
    if Latest(rows, ts).Some? then Latest(rows, ts).value.value else 0.0
  }

  /** The reading at index k is the last at or before `ts`. */
  ghost predicate IsLatest(rows: seq<Reading>, ts: int, k: nat) {
    && k < |rows| && rows[k].time <= ts
    && forall i | 0 <= i < |rows| && rows[i].time <= ts ::
         rows[i].time < rows[k].time || (rows[i].time == rows[k].time && i <= k)
  }

  /** `Latest` finds that reading, and fails only when every reading is later. */
  lemma {:induction false} LatestIsLatest(rows: seq<Reading>, ts: int) returns (k: nat)
    ensures Latest(rows, ts).None? <==> forall i | 0 <= i < |rows| :: rows[i].time > ts
    ensures Latest(rows, ts).Some? ==> IsLatest(rows, ts, k) && rows[k] == Latest(rows, ts).value
  {
    k := 0;
    if rows != [] {
      var init, last := rows[..|rows| - 1], rows[|rows| - 1];
      k := LatestIsLatest(init, ts);
      var best := Latest(init, ts);
      if last.time <= ts && (best.None? || best.value.time <= last.time) {
        k := |rows| - 1;
      }
    }
  }

  // ---- sorting does not change the answer ----

  lemma {:induction false} LatestOfSorted(rows: seq<Reading>, ts: int, n: nat)
    requires SortedBy(rows, TimeOf) && n <= |rows|
    requires forall i | 0 <= i < n :: rows[i].time <= ts
    requires forall i | n <= i < |rows| :: rows[i].time > ts
    ensures Latest(rows, ts) == if n == 0 then None else Some(rows[n - 1])
    decreases |rows|
  {
    if rows != [] {
      var init := rows[..|rows| - 1];
      if n < |rows| {
        LatestOfSorted(init, ts, n);
      } else {
        LatestOfSorted(init, ts, n - 1);
      }
    }
  }

  lemma {:induction false} InsertBetters(x: Reading, rows: seq<Reading>, ts: int)
    requires SortedBy(rows, TimeOf)
    ensures Latest(Insert(x, rows, TimeOf), ts) == Better(Latest(rows, ts), x, ts)
  {
    if rows == [] {
      assert [x][..0] == [];
    } else {
      var init, last := rows[..|rows| - 1], rows[|rows| - 1];
      var inserted := Insert(x, rows, TimeOf);
      if last.time <= x.time {
        assert inserted[..|inserted| - 1] == rows;
      } else {
        InsertBetters(x, init, ts);
        assert inserted[..|inserted| - 1] == Insert(x, init, TimeOf);
        LatestNotAfter(init, ts, last.time);
      }
    }
  }

  lemma {:induction false} LatestNotAfter(rows: seq<Reading>, ts: int, bound: int)
    requires forall i | 0 <= i < |rows| :: rows[i].time <= bound
    ensures Latest(rows, ts).Some? ==> Latest(rows, ts).value.time <= bound
  {
    if rows != [] {
      LatestNotAfter(rows[..|rows| - 1], ts, bound);
    }
  }

  lemma {:induction false} SortKeepsLatest(rows: seq<Reading>, ts: int)
    ensures Latest(StableSort(rows, TimeOf), ts) == Latest(rows, ts)
  {
    if rows != [] {
      var init := rows[..|rows| - 1];
      SortKeepsLatest(init, ts);
      SortKeeps(init, TimeOf);
      InsertBetters(rows[|rows| - 1], StableSort(init, TimeOf), ts);
    }
  }

  /** With n sorted readings at or before `ts`, the answer is the n-th. */
  lemma AsOfSorted(rows: seq<Reading>, sorted: seq<Reading>, ts: int, n: nat)
    requires sorted == StableSort(rows, TimeOf) && n <= |sorted|
    requires forall i | 0 <= i < n :: sorted[i].time <= ts
    requires forall i | n <= i < |sorted| :: sorted[i].time > ts
    ensures Latest(rows, ts) == if n == 0 then None else Some(sorted[n - 1])
  {
    SortKeeps(rows, TimeOf);
    SortKeepsLatest(rows, ts);
    LatestOfSorted(sorted, ts, n);
  }

  // ---- the three merges ----

  /** The latest bar time up to index i. */
  function MaxUpTo(ts: seq<int>, i: nat): int
    requires i < |ts|
  {
    if i == 0 then ts[0]
    else if MaxUpTo(ts, i - 1) >= ts[i] then MaxUpTo(ts, i - 1) else ts[i]
  }

  ghost predicate Ascending(ts: seq<int>) {
    forall i, j | 0 <= i < j < |ts| :: ts[i] <= ts[j]
  }

  lemma {:induction false} MaxOfAscending(ts: seq<int>, i: nat)
    requires Ascending(ts) && i < |ts|
    ensures MaxUpTo(ts, i) == ts[i]
  {
    if i > 0 {
      MaxOfAscending(ts, i - 1);
    }
  }

  /** The first `next` sorted readings are at or before time m, the others after it. */
  ghost predicate Pointed(sorted: seq<Reading>, next: nat, m: int) {
    && next <= |sorted|
    && (forall i | 0 <= i < next :: sorted[i].time <= m)
    && (forall i | next <= i < |sorted| :: sorted[i].time > m)
  }

  /** Advancing past the readings at or before the next bar points at the later of the two times. */
  lemma PointerAdvances(sorted: seq<Reading>, start: nat, next: nat, ts: seq<int>, b: nat)
    requires SortedBy(sorted, TimeOf) && start <= next <= |sorted| && b < |ts|
    requires if b == 0 then start == 0 else Pointed(sorted, start, MaxUpTo(ts, b - 1))
    requires forall i | start <= i < next :: sorted[i].time <= ts[b]
    requires next < |sorted| ==> sorted[next].time > ts[b]
    ensures Pointed(sorted, next, MaxUpTo(ts, b))
  {
    forall i | next <= i < |sorted|
      ensures sorted[i].time > ts[b]
    {
      assert TimeOf(sorted[next]) <= TimeOf(sorted[i]);
    }
  }

  /** Walks the pointer past every reading at or before the bar, remembering the last value passed. */
  method AdvancePointer(sorted: seq<Reading>, start: nat, before: real, ts: int) returns (next: nat, current: real)
    requires start <= |sorted|
    ensures start <= next <= |sorted|
    ensures forall i | start <= i < next :: sorted[i].time <= ts
    ensures next < |sorted| ==> sorted[next].time > ts
    ensures current == if next == start then before else sorted[next - 1].value
  {
    next, current := start, before;
    while next < |sorted| && sorted[next].time <= ts
      invariant start <= next <= |sorted|
      invariant current == if next == start then before else sorted[next - 1].value
      invariant forall i | start <= i < next :: sorted[i].time <= ts
    {
      current := sorted[next].value;
      next := next + 1;
    }
  }

  /** The first bars hold the value as of the latest time reached so far. */
  ghost predicate Filled(funding: seq<real>, ts: seq<int>, rows: seq<Reading>) {
    |funding| <= |ts| && forall i | 0 <= i < |funding| :: funding[i] == AsOf(rows, MaxUpTo(ts, i))
  }

  lemma FillNext(funding: seq<real>, ts: seq<int>, rows: seq<Reading>, value: real)
    requires Filled(funding, ts, rows) && |funding| < |ts| && value == AsOf(rows, MaxUpTo(ts, |funding|))
    ensures Filled(funding + [value], ts, rows)
  {
  }

  /** The merge pointer, for bars in any order: it never steps back, so each bar sees the latest time reached. */
  method MergeFunding(ts: seq<int>, rows: seq<Reading>) returns (funding: seq<real>)
    ensures |funding| == |ts|
    ensures forall i | 0 <= i < |ts| :: funding[i] == AsOf(rows, MaxUpTo(ts, i))
  {
    var sorted := StableSort(rows, TimeOf);
    SortKeeps(rows, TimeOf);
    funding := [];
    var next: nat, current := 0, 0.0;
    for b := 0 to |ts|
      invariant |funding| == b && next <= |sorted|
      invariant current == if next == 0 then 0.0 else sorted[next - 1].value
      invariant if b == 0 then next == 0 else Pointed(sorted, next, MaxUpTo(ts, b - 1))
      invariant Filled(funding, ts, rows)
    {
      ghost var start := next;
      next, current := AdvancePointer(sorted, next, current, ts[b]);
      PointerAdvances(sorted, start, next, ts, b);
      AsOfSorted(rows, sorted, MaxUpTo(ts, b), next);
      FillNext(funding, ts, rows, current);
      funding := funding + [current];
    }
  }

  /** On ascending bars the merge gives each bar the as-of value, as the bisection does index for index. */
  method MergeFundingInOrder(ts: seq<int>, rows: seq<Reading>) returns (funding: seq<real>)
    requires Ascending(ts)
    ensures |funding| == |ts|
    ensures forall i | 0 <= i < |ts| :: funding[i] == AsOf(rows, ts[i])
  {
    funding := MergeFunding(ts, rows);
    forall i | 0 <= i < |ts|
      ensures funding[i] == AsOf(rows, ts[i])
    {
      MaxOfAscending(ts, i);
    }
  }

  /** The number of sorted readings at or before `ts`. */
  method BisectRight(sorted: seq<Reading>, ts: int) returns (n: nat)
    requires SortedBy(sorted, TimeOf)
    ensures n <= |sorted|
    ensures forall i | 0 <= i < n :: sorted[i].time <= ts
    ensures forall i | n <= i < |sorted| :: sorted[i].time > ts
  {
    var lo, hi := 0, |sorted|;
    while lo < hi
      invariant 0 <= lo <= hi <= |sorted|
      invariant forall i | 0 <= i < lo :: sorted[i].time <= ts
      invariant forall i | hi <= i < |sorted| :: sorted[i].time > ts
    {
      var mid := (lo + hi) / 2;
      if ts < sorted[mid].time {
        forall i | mid <= i < |sorted|
          ensures sorted[i].time > ts
        {
          assert TimeOf(sorted[mid]) <= TimeOf(sorted[i]);
        }
        hi := mid;
      } else {
        forall i | 0 <= i <= mid
          ensures sorted[i].time <= ts
        {
          assert TimeOf(sorted[i]) <= TimeOf(sorted[mid]);
        }
        lo := mid + 1;
      }
    }
    n := lo;
  }

  /** Sentiment by bisection; an empty side leaves the column as it was. */
  method EnrichSentiment(ts: seq<int>, column: seq<real>, rows: seq<Reading>) returns (scores: seq<real>)
    ensures rows == [] || ts == [] ==> scores == column
    ensures rows != [] && ts != [] ==>
              |scores| == |ts| && forall i | 0 <= i < |ts| :: scores[i] == AsOf(rows, ts[i])
  {
    if rows == [] || ts == [] {
      return column;
    }
    var sorted := StableSort(rows, TimeOf);
    SortKeeps(rows, TimeOf);
    scores := [];
    for b := 0 to |ts|
      invariant |scores| == b
      invariant forall i | 0 <= i < b :: scores[i] == AsOf(rows, ts[i])
    {
      var n := BisectRight(sorted, ts[b]);
      AsOfSorted(rows, sorted, ts[b], n);
      scores := scores + [if n > 0 then sorted[n - 1].value else 0.0];
    }
  }

  /** The last snapshot, if it is at most an hour old. */
  function RecentReading(rows: seq<Reading>, ts: int): Option<Reading> {
    var latest := Latest(rows, ts);
    if latest.Some? && ts - latest.value.time <= HOUR_MS then latest else None
  }

  function RecentAsOf(rows: seq<Reading>, ts: int): real {
    var recent := RecentReading(rows, ts);
    if recent.Some? then recent.value.value else 0.0
  }

  method MergeOpenInterest(ts: seq<int>, rows: seq<Reading>) returns (interest: seq<real>)
    ensures |interest| == |ts|
    ensures forall i | 0 <= i < |ts| :: interest[i] == RecentAsOf(rows, ts[i])
  {
    var sorted := StableSort(rows, TimeOf);
    SortKeeps(rows, TimeOf);
    interest := [];
    for b := 0 to |ts|
      invariant |interest| == b
      invariant forall i | 0 <= i < b :: interest[i] == RecentAsOf(rows, ts[i])
    {
      var n := BisectRight(sorted, ts[b]);
      AsOfSorted(rows, sorted, ts[b], n);
      var near := n > 0 && ts[b] - sorted[n - 1].time <= HOUR_MS;
      interest := interest + [if near then sorted[n - 1].value else 0.0];
    }
  }

  // ---- what the joins promise ----

  /** The joined value is the last reading at or before the bar, within the hour for open interest; else zero. */
  lemma JoinsReadTheLatest(rows: seq<Reading>, ts: int) returns (k: nat)
    ensures if forall i | 0 <= i < |rows| :: rows[i].time > ts then AsOf(rows, ts) == 0.0 && RecentAsOf(rows, ts) == 0.0
            else
              && IsLatest(rows, ts, k) && AsOf(rows, ts) == rows[k].value
              && RecentAsOf(rows, ts) == if ts - rows[k].time > 3_600_000 then 0.0 else rows[k].value
  {
    k := LatestIsLatest(rows, ts);
  }

  /** The readings at or before `ts`, in the order given. */
  function UpTo(rows: seq<Reading>, ts: int): seq<Reading> {
    if rows == [] then []
    else UpTo(rows[..|rows| - 1], ts) + (if rows[|rows| - 1].time <= ts then [rows[|rows| - 1]] else [])
  }

  lemma {:induction false} LatestOnlySeesThePast(rows: seq<Reading>, ts: int)
    ensures Latest(UpTo(rows, ts), ts) == Latest(rows, ts)
  {
    if rows != [] {
      var init, last := rows[..|rows| - 1], rows[|rows| - 1];
      LatestOnlySeesThePast(init, ts);
      if last.time <= ts {
        assert (UpTo(init, ts) + [last])[..|UpTo(init, ts)|] == UpTo(init, ts);
      } else {
        assert UpTo(rows, ts) == UpTo(init, ts);
      }
    }
  }

  /** Readings later than the bar, however many and wherever they are listed, change nothing. */
  lemma NoLookAheadInJoins(a: seq<Reading>, b: seq<Reading>, ts: int)
    requires UpTo(a, ts) == UpTo(b, ts)
    ensures AsOf(a, ts) == AsOf(b, ts) && RecentAsOf(a, ts) == RecentAsOf(b, ts)
  {
    LatestOnlySeesThePast(a, ts);
    LatestOnlySeesThePast(b, ts);
  }

  function Distance(r: Reading, ts: int): int { if r.time <= ts then ts - r.time else r.time - ts }

  /** A snapshot within an hour either way, none of them nearer; or none, and then there is none. */
  ghost predicate PicksNearest(rows: seq<Reading>, ts: int, pick: Option<Reading>) {
    if pick.None? then forall r | r in rows :: Distance(r, ts) > HOUR_MS
    else
      && pick.value in rows && Distance(pick.value, ts) <= HOUR_MS
      && forall r | r in rows :: Distance(pick.value, ts) <= Distance(r, ts)
  }

  /** Every snapshot in the hour after the bar is at least as far from it as some earlier one. */
  ghost predicate LaterOnesAreFarther(rows: seq<Reading>, ts: int) {
    forall r | r in rows && ts < r.time <= ts + HOUR_MS ::
      Latest(rows, ts).Some? && Distance(Latest(rows, ts).value, ts) <= Distance(r, ts)
  }

  /**
   The join picks the nearest snapshot within an hour if and only if no snapshot after the bar is nearer than the last
   before it.
   */
  lemma NearestIffLaterOnesAreFarther(rows: seq<Reading>, ts: int)
    ensures PicksNearest(rows, ts, RecentReading(rows, ts)) <==> LaterOnesAreFarther(rows, ts)
  {
    var k := LatestIsLatest(rows, ts);
    var pick, latest := RecentReading(rows, ts), Latest(rows, ts);
    if latest.Some? {
      assert latest.value in rows;
      forall r | r in rows && r.time <= ts
        ensures Distance(latest.value, ts) <= Distance(r, ts)
      {
        var i :| 0 <= i < |rows| && rows[i] == r;
      }
    } else {
      forall r | r in rows
        ensures r.time > ts
      {
        var i :| 0 <= i < |rows| && rows[i] == r;
      }
    }
    if LaterOnesAreFarther(rows, ts) {
      assert PicksNearest(rows, ts, pick);
    } else {
      var r :| r in rows && ts < r.time <= ts + HOUR_MS
               && !(latest.Some? && Distance(latest.value, ts) <= Distance(r, ts));
      assert Distance(r, ts) <= HOUR_MS;
      assert !PicksNearest(rows, ts, pick);
    }
  }

  /** Open interest is not the nearest snapshot: one a millisecond after the bar loses to none at all. */
  lemma NearestSnapshotIgnoredIfLater(ts: int, value: real)
    ensures RecentAsOf([Reading(ts + 1, value)], ts) == 0.0
    ensures RecentAsOf([Reading(ts - HOUR_MS, value), Reading(ts + 1, 0.0)], ts) == value
  {
    LatestOfPair(Reading(ts - HOUR_MS, value), Reading(ts + 1, 0.0), ts);
    LatestOfPair(Reading(ts + 1, value), Reading(ts + 1, value), ts);
  }

  lemma LatestOfPair(a: Reading, b: Reading, ts: int)
    ensures Latest([a], ts) == Better(None, a, ts)
    ensures Latest([a, b], ts) == Better(Better(None, a, ts), b, ts)
  {
    assert [a][..0] == [] && [a, b][..1] == [a];
  }

  // ---- pagination ----

  /** The server's rows with times in [from, to]. */
  function Between(rows: seq<Reading>, from: int, to: int): seq<Reading> {
    if rows == [] then []
    else if from <= rows[0].time <= to then [rows[0]] + Between(rows[1..], from, to)
    else Between(rows[1..], from, to)
  }

  ghost predicate StrictlyAscending(rows: seq<Reading>) {
    forall i, j | 0 <= i < j < |rows| :: rows[i].time < rows[j].time
  }

  function PageOf(server: seq<Reading>, from: int, to: int): seq<Reading> {
    var rows := Between(server, from, to);
    if |rows| <= PAGE then rows else rows[..PAGE]
  }

  /** Every full page but the last ends past the cursor and before the row that follows it. */
  ghost predicate PagesCutCleanly(rows: seq<Reading>, cursor: int) {
    |rows| <= PAGE
    || (cursor < rows[PAGE - 1].time < rows[PAGE].time && PagesCutCleanly(rows[PAGE..], rows[PAGE - 1].time + 1))
  }

  lemma {:induction false} BetweenConcat(a: seq<Reading>, b: seq<Reading>, from: int, to: int)
    ensures Between(a + b, from, to) == Between(a, from, to) + Between(b, from, to)
  {
    if a == [] {
      assert a + b == b;
    } else {
      assert (a + b)[1..] == a[1..] + b;
      BetweenConcat(a[1..], b, from, to);
    }
  }

  lemma {:induction false} BetweenAgain(rows: seq<Reading>, from: int, from': int, to: int)
    requires from <= from'
    ensures Between(Between(rows, from, to), from', to) == Between(rows, from', to)
  {
    if rows != [] {
      BetweenAgain(rows[1..], from, from', to);
      if from <= rows[0].time <= to {
        assert ([rows[0]] + Between(rows[1..], from, to))[1..] == Between(rows[1..], from, to);
      }
    }
  }

  lemma {:induction false} BetweenInside(rows: seq<Reading>, from: int, to: int)
    ensures |Between(rows, from, to)| <= |rows|
    ensures forall r | r in Between(rows, from, to) :: r in rows && from <= r.time <= to
    ensures (forall r | r in rows :: from <= r.time <= to) ==> Between(rows, from, to) == rows
    ensures rows != [] && rows[0].time < from ==> |Between(rows, from, to)| < |rows|
    ensures (forall r | r in rows :: r.time < from) ==> Between(rows, from, to) == []
  {
    if rows != [] {
      BetweenInside(rows[1..], from, to);
    }
  }

  lemma {:induction false} BetweenSorted(rows: seq<Reading>, from: int, to: int)
    requires SortedBy(rows, TimeOf)
    ensures SortedBy(Between(rows, from, to), TimeOf)
  {
    if rows != [] {
      var rest := Between(rows[1..], from, to);
      BetweenSorted(rows[1..], from, to);
      BetweenInside(rows[1..], from, to);
      forall i | 0 <= i < |rest|
        ensures rows[0].time <= rest[i].time
      {
        assert rest[i] in rows[1..];
        var k :| 0 <= k < |rows[1..]| && rows[1..][k] == rest[i];
        assert TimeOf(rows[0]) <= TimeOf(rows[k + 1]);
      }
    }
  }

  lemma PageIsPast(page: seq<Reading>, last: int, end: int)
    requires SortedBy(page, TimeOf) && page != [] && last == page[|page| - 1].time
    ensures Between(page, last + 1, end) == []
  {
    forall r | r in page
      ensures r.time < last + 1
    {
      var i :| 0 <= i < |page| && page[i] == r;
      assert TimeOf(page[i]) <= TimeOf(page[|page| - 1]);
    }
    BetweenInside(page, last + 1, end);
  }

  lemma TailIsNext(tail: seq<Reading>, last: int, end: int)
    requires SortedBy(tail, TimeOf) && forall r | r in tail :: last <= r.time <= end
    ensures if tail != [] && tail[0].time == last then |Between(tail, last + 1, end)| < |tail|
            else Between(tail, last + 1, end) == tail
  {
    BetweenInside(tail, last + 1, end);
    if tail != [] && tail[0].time != last {
      forall r | r in tail
        ensures last + 1 <= r.time <= end
      {
        var i :| 0 <= i < |tail| && tail[i] == r;
        assert TimeOf(tail[0]) <= TimeOf(tail[i]);
      }
    }
  }

  /** After a full page, resuming one past its last row gives the rest exactly when no row ties with it. */
  ghost predicate Resumes(rest: seq<Reading>, next: seq<Reading>)
    requires |rest| >= PAGE
  {
    && (|rest| > PAGE ==> rest[PAGE - 1].time <= rest[PAGE].time)
    && if |rest| > PAGE && rest[PAGE].time == rest[PAGE - 1].time then |next| < |rest| - PAGE else next == rest[PAGE..]
  }

  lemma SortedSplit(page: seq<Reading>, tail: seq<Reading>, last: int)
    requires SortedBy(page + tail, TimeOf) && page != [] && last == page[|page| - 1].time
    ensures SortedBy(page, TimeOf) && SortedBy(tail, TimeOf) && forall r | r in tail :: last <= r.time
  {
    var rest := page + tail;
    forall i, j | 0 <= i < j < |page|
      ensures TimeOf(page[i]) <= TimeOf(page[j])
    {
      assert rest[i] == page[i] && rest[j] == page[j];
    }
    forall i, j | 0 <= i < j < |tail|
      ensures TimeOf(tail[i]) <= TimeOf(tail[j])
    {
      assert rest[|page| + i] == tail[i] && rest[|page| + j] == tail[j];
    }
    forall r | r in tail
      ensures last <= r.time
    {
      var i :| 0 <= i < |tail| && tail[i] == r;
      assert TimeOf(rest[|page| - 1]) <= TimeOf(rest[|page| + i]);
    }
  }

  lemma ResumePage(page: seq<Reading>, tail: seq<Reading>, last: int, end: int)
    requires SortedBy(page + tail, TimeOf) && page != [] && last == page[|page| - 1].time
    requires forall r | r in tail :: r.time <= end
    ensures var next := Between(page + tail, last + 1, end);
            && (tail != [] ==> last <= tail[0].time)
            && if tail != [] && tail[0].time == last then |next| < |tail| else next == tail
  {
    SortedSplit(page, tail, last);
    BetweenConcat(page, tail, last + 1, end);
    PageIsPast(page, last, end);
    TailIsNext(tail, last, end);
  }

  lemma ResumeWithin(rest: seq<Reading>, cursor: int, end: int)
    requires SortedBy(rest, TimeOf) && |rest| >= PAGE && forall r | r in rest :: cursor <= r.time <= end
    ensures Resumes(rest, Between(rest, rest[PAGE - 1].time + 1, end))
  {
    assert rest == rest[..PAGE] + rest[PAGE..];
    ResumePage(rest[..PAGE], rest[PAGE..], rest[PAGE - 1].time, end);
  }

  lemma Resume(server: seq<Reading>, rest: seq<Reading>, cursor: int, end: int)
    requires SortedBy(server, TimeOf) && rest == Between(server, cursor, end) && |rest| >= PAGE
    ensures cursor <= rest[PAGE - 1].time && Resumes(rest, Between(server, rest[PAGE - 1].time + 1, end))
  {
    BetweenSorted(server, cursor, end);
    BetweenInside(server, cursor, end);
    assert rest[PAGE - 1] in rest;
    BetweenAgain(server, cursor, rest[PAGE - 1].time + 1, end);
    ResumeWithin(rest, cursor, end);
  }

  /** What one request leaves to do: nothing lost so far, or already fewer rows than there were. */
  ghost predicate Fetching(all: seq<Reading>, rest: seq<Reading>, goal: seq<Reading>, lost: bool) {
    if lost then |all| + |rest| < |goal| else all + rest == goal
  }

  lemma FetchPage(all: seq<Reading>, rest: seq<Reading>, next: seq<Reading>, goal: seq<Reading>, lost: bool, tied: bool)
    requires Fetching(all, rest, goal, lost) && |rest| >= PAGE && Resumes(rest, next)
    requires tied == (|rest| > PAGE && rest[PAGE].time == rest[PAGE - 1].time)
    ensures Fetching(all + rest[..PAGE], next, goal, lost || tied)
    ensures forall cursor | cursor < rest[PAGE - 1].time ::
              PagesCutCleanly(rest, cursor) <==> !tied && PagesCutCleanly(next, rest[PAGE - 1].time + 1)
  {
    if !lost && !tied {
      assert rest == rest[..PAGE] + rest[PAGE..];
      assert (all + rest[..PAGE]) + rest[PAGE..] == all + rest;
    }
  }

  /**
   Pages of a thousand, resumed one past the last row: every row of the window, once and in order, if and only
   if each page is cut between different times.
   */
  method FetchFundingHistory(server: seq<Reading>, start: int, end: int) returns (all: seq<Reading>)
    requires SortedBy(server, TimeOf)
    ensures all == Between(server, start, end) <==> PagesCutCleanly(Between(server, start, end), start)
    ensures |all| <= |Between(server, start, end)|
  {
    all := [];
    var cursor := start;
    ghost var goal, rest, lost := Between(server, start, end), Between(server, start, end), false;
    while cursor <= end
      invariant rest == Between(server, cursor, end) && Fetching(all, rest, goal, lost)
      invariant PagesCutCleanly(goal, start) <==> !lost && PagesCutCleanly(rest, cursor)
      decreases end - cursor
    {
      var batch := PageOf(server, cursor, end);
      if batch == [] {
        return;
      }
      ghost var before := all;
      all := all + batch;
      var last := batch[|batch| - 1].time;
      if last <= cursor || |batch| < PAGE {
        assert |rest| <= PAGE ==> batch == rest;
        return;
      }
      Resume(server, rest, cursor, end);
      ghost var tied := |rest| > PAGE && rest[PAGE].time == last;
      assert batch == rest[..PAGE];
      FetchPage(before, rest, Between(server, last + 1, end), goal, lost, tied);
      rest, lost, cursor := Between(server, last + 1, end), lost || tied, last + 1;
    }
    EmptyBeyond(server, cursor, end);
  }

  lemma {:induction false} EmptyBeyond(rows: seq<Reading>, from: int, to: int)
    requires from > to
    ensures Between(rows, from, to) == []
  {
    if rows != [] {
      EmptyBeyond(rows[1..], from, to);
    }
  }

  /** Rows at different times are always cut cleanly. */
  lemma {:induction false} DistinctTimesCutCleanly(rows: seq<Reading>, cursor: int)
    requires StrictlyAscending(rows) && forall i | 0 <= i < |rows| :: cursor <= rows[i].time
    ensures PagesCutCleanly(rows, cursor)
  {
    if |rows| > PAGE {
      assert rows[0].time < rows[PAGE - 1].time < rows[PAGE].time;
      DistinctTimesCutCleanly(rows[PAGE..], rows[PAGE - 1].time + 1);
    }
  }
}
