/**
 Nightly consolidation of reflections: every lesson is compared with all later ones and the less
 informative of two similar lessons is soft-deleted. Similarity is an arbitrary fixed function.
 */
module Dedupe {
  const THRESHOLD: real := 0.92

  datatype Row = Row(id: string, lesson: string, pnl: real, stale: bool)

  type Similarity = (string, string) -> real

  /** Ids dropped so far, and the soft-delete calls made, in order. */
  datatype Pass = Pass(seen: set<string>, deleted: seq<string>)

  function Abs(x: real): real { if x < 0.0 then -x else x }

  function Active(rows: seq<Row>): seq<Row> {
    if rows == [] then []
    else (if rows[0].stale then [] else [rows[0]]) + Active(rows[1..])
  }

  /** Of two similar rows the later one goes unless it moved more money. */
  function Dropped(rows: seq<Row>, i: nat, j: nat): nat
    requires i < |rows| && j < |rows|
  {
    if Abs(rows[i].pnl) >= Abs(rows[j].pnl) then j else i
  }

  function Compare(rows: seq<Row>, sim: Similarity, i: nat, j: nat, p: Pass): Pass
    requires i < j < |rows|
  {
    if rows[j].id in p.seen || rows[j].lesson == "" || sim(rows[i].lesson, rows[j].lesson) < THRESHOLD then p
    else
      var id := rows[Dropped(rows, i, j)].id;
      Pass(p.seen + {id}, p.deleted + [id])
  }

  function Inner(rows: seq<Row>, sim: Similarity, i: nat, j: nat, p: Pass): Pass
    requires i < j <= |rows|
    decreases |rows| - j
  {
    if j == |rows| then p else Inner(rows, sim, i, j + 1, Compare(rows, sim, i, j, p))
  }

  function Outer(rows: seq<Row>, sim: Similarity, i: nat, p: Pass): Pass
    requires i <= |rows|
    decreases |rows| - i
  {
    if i == |rows| then p
    else
      var skipped := rows[i].id in p.seen || rows[i].lesson == "";
      Outer(rows, sim, i + 1, if skipped then p else Inner(rows, sim, i, i + 1, p))
  }

  function Consolidate(rows: seq<Row>, sim: Similarity): Pass {
    if |rows| < 2 then Pass({}, []) else Outer(rows, sim, 0, Pass({}, []))
  }

  class Dreamer {
    const similarity: Similarity
    var reflectionsChecked: nat
    var reflectionsDeduped: nat
    var softDeleted: seq<string>

    constructor (similarity: Similarity)
      ensures this.similarity == similarity
      ensures reflectionsChecked == 0 && reflectionsDeduped == 0 && softDeleted == []
    {
      this.similarity := similarity;
      reflectionsChecked, reflectionsDeduped, softDeleted := 0, 0, [];
    }

    method DedupeReflections(recent: seq<Row>) returns (seen: set<string>)
      modifies this
      ensures reflectionsChecked == |Active(recent)|
      ensures var p := Consolidate(Active(recent), similarity);
              && seen == p.seen
              && softDeleted == old(softDeleted) + p.deleted
              && reflectionsDeduped == old(reflectionsDeduped) + |p.deleted|
    {
      var rows := Active(recent);
      reflectionsChecked := |rows|;
      seen := {};
      if |rows| < 2 {
        return;
      }
      ghost var deleted: seq<string> := [];
      ghost var goal := Consolidate(rows, similarity);
      for i := 0 to |rows|
        invariant reflectionsChecked == |rows|
        invariant Outer(rows, similarity, i, Pass(seen, deleted)) == goal
        invariant Reported(old(softDeleted), old(reflectionsDeduped), deleted)
      {
        if rows[i].id in seen || rows[i].lesson == "" {
          continue;
        }
        seen, deleted := CompareWithLater(rows, i, seen, deleted, old(softDeleted), old(reflectionsDeduped));
      }
    }

    /** Since the given calls and count, exactly these rows were deleted and counted. */
    ghost predicate Reported(calls: seq<string>, count: nat, deleted: seq<string>)
      reads this
    {
      softDeleted == calls + deleted && reflectionsDeduped == count + |deleted|
    }

    /** The inner loop: row i against all later ones. `before` and `deletedBefore` are the pass so far. */
    method CompareWithLater(rows: seq<Row>, i: nat, before: set<string>, ghost deletedBefore: seq<string>,
                            ghost calls: seq<string>, ghost count: nat)
      returns (seen: set<string>, ghost deleted: seq<string>)
      requires i < |rows| && Reported(calls, count, deletedBefore)
      modifies this
      ensures reflectionsChecked == old(reflectionsChecked)
      ensures Pass(seen, deleted) == Inner(rows, similarity, i, i + 1, Pass(before, deletedBefore))
      ensures Reported(calls, count, deleted)
    {
      seen, deleted := before, deletedBefore;
      ghost var inner := Inner(rows, similarity, i, i + 1, Pass(before, deletedBefore));
      for j := i + 1 to |rows|
        invariant reflectionsChecked == old(reflectionsChecked)
        invariant Inner(rows, similarity, i, j, Pass(seen, deleted)) == inner
        invariant Reported(calls, count, deleted)
      {
        if rows[j].id in seen || rows[j].lesson == "" {
          continue;
        }
        if similarity(rows[i].lesson, rows[j].lesson) >= THRESHOLD {
          var drop := rows[if Abs(rows[i].pnl) >= Abs(rows[j].pnl) then j else i];
          seen := seen + {drop.id};
          softDeleted := softDeleted + [drop.id];
          deleted := deleted + [drop.id];
          reflectionsDeduped := reflectionsDeduped + 1;
        }
      }
    }
  }

  // ---- survivors are independent and dominating ----

  ghost predicate DistinctIds(rows: seq<Row>) {
    forall i, j | 0 <= i < j < |rows| :: rows[i].id != rows[j].id
  }

  /** The two rows have lessons at or above the threshold, compared earlier against later. */
  ghost predicate Similar(rows: seq<Row>, sim: Similarity, a: nat, b: nat)
    requires a < |rows| && b < |rows|
  {
    && a != b && rows[a].lesson != "" && rows[b].lesson != ""
    && (if a < b then sim(rows[a].lesson, rows[b].lesson) else sim(rows[b].lesson, rows[a].lesson)) >= THRESHOLD
  }

  /** More money moved, or as much and earlier. */
  predicate Outranks(rows: seq<Row>, k: nat, d: nat)
    requires k < |rows| && d < |rows|
  {
    Abs(rows[k].pnl) > Abs(rows[d].pnl) || (Abs(rows[k].pnl) == Abs(rows[d].pnl) && k < d)
  }

  /** Some similar row outranks row d. */
  ghost predicate Beaten(rows: seq<Row>, sim: Similarity, d: nat)
    requires d < |rows|
  {
    exists k: nat :: k < |rows| && Similar(rows, sim, k, d) && Outranks(rows, k, d)
  }

  ghost predicate Apart(rows: seq<Row>, sim: Similarity, a: nat, b: nat, seen: set<string>)
    requires a < |rows| && b < |rows|
  {
    rows[a].id in seen || rows[b].id in seen || !Similar(rows, sim, a, b)
  }

  /** Dropped ids belong to beaten rows and are exactly the ids deleted. */
  ghost predicate Justified(rows: seq<Row>, sim: Similarity, p: Pass) {
    && (forall d | 0 <= d < |rows| && rows[d].id in p.seen :: Beaten(rows, sim, d))
    && (forall id :: id in p.seen <==> id in p.deleted)
  }

  lemma CompareLaw(rows: seq<Row>, sim: Similarity, i: nat, j: nat, p: Pass)
    requires i < j < |rows| && DistinctIds(rows) && Justified(rows, sim, p) && rows[i].lesson != ""
    ensures var q := Compare(rows, sim, i, j, p);
            && p.seen <= q.seen && Justified(rows, sim, q)
            && Apart(rows, sim, i, j, q.seen)
  {
    var q := Compare(rows, sim, i, j, p);
    if q != p {
      var d := Dropped(rows, i, j);
      var k := i + j - d;
      assert Similar(rows, sim, k, d) && Outranks(rows, k, d);
      assert Beaten(rows, sim, d);
      forall e | 0 <= e < |rows| && rows[e].id in q.seen
        ensures Beaten(rows, sim, e)
      {
        if rows[e].id !in p.seen {
          assert e == d;
        }
      }
    }
  }

  lemma {:induction false} InnerLaw(rows: seq<Row>, sim: Similarity, i: nat, j: nat, p: Pass)
    requires i < j <= |rows| && DistinctIds(rows) && Justified(rows, sim, p) && rows[i].lesson != ""
    ensures var q := Inner(rows, sim, i, j, p);
            && p.seen <= q.seen && Justified(rows, sim, q)
            && forall b | j <= b < |rows| :: Apart(rows, sim, i, b, q.seen)
    decreases |rows| - j
  {
    if j < |rows| {
      CompareLaw(rows, sim, i, j, p);
      InnerLaw(rows, sim, i, j + 1, Compare(rows, sim, i, j, p));
    }
  }

  /** Row i against all later ones. */
  ghost predicate ApartFrom(rows: seq<Row>, sim: Similarity, i: nat, seen: set<string>)
    requires i < |rows|
  {
    forall b | i < b < |rows| :: Apart(rows, sim, i, b, seen)
  }

  ghost predicate AllApart(rows: seq<Row>, sim: Similarity, n: nat, seen: set<string>) {
    forall a | n <= a < |rows| :: ApartFrom(rows, sim, a, seen)
  }

  lemma StaysApart(rows: seq<Row>, sim: Similarity, i: nat, seen: set<string>, more: set<string>)
    requires i < |rows| && ApartFrom(rows, sim, i, seen) && seen <= more
    ensures ApartFrom(rows, sim, i, more)
  {
    forall b | i < b < |rows|
      ensures Apart(rows, sim, i, b, more)
    {
      assert Apart(rows, sim, i, b, seen);
    }
  }

  /** The turn of row i. */
  lemma TurnLaw(rows: seq<Row>, sim: Similarity, i: nat, p: Pass) returns (q: Pass)
    requires i < |rows| && DistinctIds(rows) && Justified(rows, sim, p)
    ensures Outer(rows, sim, i, p) == Outer(rows, sim, i + 1, q)
    ensures p.seen <= q.seen && Justified(rows, sim, q) && ApartFrom(rows, sim, i, q.seen)
  {
    q := p;
    if rows[i].id !in p.seen && rows[i].lesson != "" {
      q := Inner(rows, sim, i, i + 1, p);
      InnerLaw(rows, sim, i, i + 1, p);
    }
  }

  lemma {:induction false} OuterLaw(rows: seq<Row>, sim: Similarity, i: nat, p: Pass)
    requires i <= |rows| && DistinctIds(rows) && Justified(rows, sim, p)
    ensures var q := Outer(rows, sim, i, p);
            p.seen <= q.seen && Justified(rows, sim, q) && AllApart(rows, sim, i, q.seen)
    decreases |rows| - i
  {
    if i < |rows| {
      var r := TurnLaw(rows, sim, i, p);
      OuterLaw(rows, sim, i + 1, r);
      StaysApart(rows, sim, i, r.seen, Outer(rows, sim, i, p).seen);
    }
  }

  ghost predicate Survives(rows: seq<Row>, sim: Similarity, i: nat)
    requires i < |rows|
  {
    rows[i].id !in Consolidate(rows, sim).seen
  }

  lemma ConsolidateLaw(rows: seq<Row>, sim: Similarity)
    requires DistinctIds(rows)
    ensures var p := Consolidate(rows, sim);
            && Justified(rows, sim, p)
            && AllApart(rows, sim, 0, p.seen)
  {
    if |rows| >= 2 {
      OuterLaw(rows, sim, 0, Pass({}, []));
    }
  }

  /** No two survivors with lessons are similar. */
  lemma SurvivorsAreIndependent(rows: seq<Row>, sim: Similarity, a: nat, b: nat)
    requires DistinctIds(rows) && a < b < |rows|
    requires Survives(rows, sim, a) && Survives(rows, sim, b)
    requires rows[a].lesson != "" && rows[b].lesson != ""
    ensures sim(rows[a].lesson, rows[b].lesson) < THRESHOLD
  {
    ConsolidateLaw(rows, sim);
    assert ApartFrom(rows, sim, a, Consolidate(rows, sim).seen);
    assert Apart(rows, sim, a, b, Consolidate(rows, sim).seen);
  }

  /** A path of similar rows, each outranked by the next. */
  ghost predicate Chain(rows: seq<Row>, sim: Similarity, path: seq<nat>) {
    && path != [] && (forall t | 0 <= t < |path| :: path[t] < |rows|)
    && forall t | 0 <= t < |path| - 1 ::
         Similar(rows, sim, path[t + 1], path[t]) && Outranks(rows, path[t + 1], path[t])
  }

  /** The rows that outrank row d; the set shrinks along a chain. */
  function Above(rows: seq<Row>, d: nat): set<nat>
    requires d < |rows|
  {
    set k: nat | k < |rows| && Outranks(rows, k, d)
  }

  lemma AboveShrinks(rows: seq<Row>, k: nat, d: nat)
    requires k < |rows| && d < |rows| && Outranks(rows, k, d)
    ensures Above(rows, k) < Above(rows, d)
  {
    assert k in Above(rows, d) && k !in Above(rows, k);
  }

  /**
   Every row, dropped or not, is linked by a chain of similar, ever higher ranked rows to a survivor worth at least as
   much.
   */
  lemma {:induction false} SurvivorsDominate(rows: seq<Row>, sim: Similarity, d: nat) returns (path: seq<nat>)
    requires DistinctIds(rows) && d < |rows|
    ensures Chain(rows, sim, path) && path[0] == d
    ensures Survives(rows, sim, path[|path| - 1])
    ensures Abs(rows[path[|path| - 1]].pnl) >= Abs(rows[d].pnl)
    decreases Above(rows, d)
  {
    if Survives(rows, sim, d) {
      path := [d];
    } else {
      ConsolidateLaw(rows, sim);
      assert Beaten(rows, sim, d);
      var k: nat :| k < |rows| && Similar(rows, sim, k, d) && Outranks(rows, k, d);
      AboveShrinks(rows, k, d);
      var rest := SurvivorsDominate(rows, sim, k);
      path := [d] + rest;
      forall t | 0 <= t < |path| - 1
        ensures Similar(rows, sim, path[t + 1], path[t]) && Outranks(rows, path[t + 1], path[t])
      {
        if t > 0 {
          assert path[t + 1] == rest[t] && path[t] == rest[t - 1];
        }
      }
    }
  }

  /** The earliest row of largest magnitude survives. */
  lemma TopRowSurvives(rows: seq<Row>, sim: Similarity, m: nat)
    requires DistinctIds(rows) && m < |rows|
    requires forall k | 0 <= k < |rows| :: Abs(rows[k].pnl) <= Abs(rows[m].pnl)
    requires forall k | 0 <= k < m :: Abs(rows[k].pnl) < Abs(rows[m].pnl)
    ensures Survives(rows, sim, m)
  {
    ConsolidateLaw(rows, sim);
  }

  // ---- the counter ----

  lemma {:induction false} DistinctFitIn(ids: set<string>, calls: seq<string>)
    requires forall id | id in ids :: id in calls
    ensures |ids| <= |calls|
  {
    if calls == [] {
      assert ids == {};
    } else {
      var last := calls[|calls| - 1];
      DistinctFitIn(ids - {last}, calls[..|calls| - 1]);
      if last in ids {
        assert ids == (ids - {last}) + {last};
      } else {
        assert ids - {last} == ids;
      }
    }
  }

  /** The reported count is at least the number of rows removed. */
  lemma CountCoversDropped(rows: seq<Row>, sim: Similarity)
    requires DistinctIds(rows)
    ensures |Consolidate(rows, sim).deleted| >= |Consolidate(rows, sim).seen|
  {
    ConsolidateLaw(rows, sim);
    DistinctFitIn(Consolidate(rows, sim).seen, Consolidate(rows, sim).deleted);
  }

  /** Row j is later than row i, similar to it and moved more money. */
  ghost predicate Overtakes(rows: seq<Row>, sim: Similarity, j: nat, i: nat) {
    i < j < |rows| && Similar(rows, sim, i, j) && Abs(rows[j].pnl) > Abs(rows[i].pnl)
  }

  /** What the pass has dropped and deleted when the turn of row i comes. */
  function Before(rows: seq<Row>, sim: Similarity, i: nat): Pass
    requires i <= |rows|
  {
    if i == 0 then Pass({}, [])
    else
      var p := Before(rows, sim, i - 1);
      if rows[i - 1].id in p.seen || rows[i - 1].lesson == "" then p else Inner(rows, sim, i - 1, i, p)
  }

  lemma {:induction false} OuterFromBefore(rows: seq<Row>, sim: Similarity, i: nat)
    requires i <= |rows|
    ensures Outer(rows, sim, i, Before(rows, sim, i)) == Before(rows, sim, |rows|)
    decreases |rows| - i
  {
    if i < |rows| {
      OuterFromBefore(rows, sim, i + 1);
    }
  }

  /** Row b is still there and overtakes row i. */
  ghost predicate Takes(rows: seq<Row>, sim: Similarity, b: nat, i: nat, seen: set<string>) {
    Overtakes(rows, sim, b, i) && rows[b].id !in seen
  }

  /** Of the rows from j on, at most one that is still there overtakes row i; none if row i is already gone. */
  ghost predicate TakenOnce(rows: seq<Row>, sim: Similarity, i: nat, j: nat, seen: set<string>)
    requires i < |rows|
  {
    && (forall b: nat, c: nat | j <= b && j <= c && Takes(rows, sim, b, i, seen) &&
          Takes(rows, sim, c, i, seen) :: b == c)
    && (rows[i].id in seen ==> forall b: nat | j <= b :: !Takes(rows, sim, b, i, seen))
  }

  function Excess(p: Pass): int { |p.deleted| - |p.seen| }

  /** A comparison drops the later row for the first time, or the earlier one exactly when it is overtaken. */
  lemma CompareExcess(rows: seq<Row>, sim: Similarity, i: nat, j: nat, p: Pass)
    requires i < j < |rows| && DistinctIds(rows) && rows[i].lesson != ""
    ensures var q := Compare(rows, sim, i, j, p);
            && Excess(q) == Excess(p) + (if Takes(rows, sim, j, i, p.seen) && rows[i].id in p.seen then 1 else 0)
            && (rows[i].id in q.seen <==> rows[i].id in p.seen || Takes(rows, sim, j, i, p.seen))
  {
    var q := Compare(rows, sim, i, j, p);
    if q != p {
      var id := rows[Dropped(rows, i, j)].id;
      assert |p.seen + {id}| == |p.seen| + if id in p.seen then 0 else 1 by {
        if id in p.seen { assert p.seen + {id} == p.seen; }
      }
      assert Similar(rows, sim, i, j);
    }
  }

  lemma TakenOnceSplits(rows: seq<Row>, sim: Similarity, i: nat, j: nat, before: set<string>, after: set<string>)
    requires i < |rows|
    requires forall b: nat | j < b :: Takes(rows, sim, b, i, after) <==> Takes(rows, sim, b, i, before)
    requires rows[i].id in after <==> rows[i].id in before || Takes(rows, sim, j, i, before)
    ensures TakenOnce(rows, sim, i, j, before)
        <==> TakenOnce(rows, sim, i, j + 1, after) && !(Takes(rows, sim, j, i, before) && rows[i].id in before)
  {
  }

  lemma CompareCounts(rows: seq<Row>, sim: Similarity, i: nat, j: nat, p: Pass)
    requires i < j < |rows| && DistinctIds(rows) && rows[i].lesson != ""
    ensures var q := Compare(rows, sim, i, j, p);
            && Excess(q) == Excess(p) + (if Takes(rows, sim, j, i, p.seen) && rows[i].id in p.seen then 1 else 0)
            && (TakenOnce(rows, sim, i, j, p.seen) <==>
                  TakenOnce(rows, sim, i, j + 1, q.seen) && Excess(q) == Excess(p))
  {
    var q := Compare(rows, sim, i, j, p);
    CompareExcess(rows, sim, i, j, p);
    forall b: nat | j < b
      ensures Takes(rows, sim, b, i, q.seen) <==> Takes(rows, sim, b, i, p.seen)
    {
      if b < |rows| && q != p {
        assert q.seen == p.seen + {rows[Dropped(rows, i, j)].id};
      }
    }
    TakenOnceSplits(rows, sim, i, j, p.seen, q.seen);
  }

  lemma {:induction false} InnerCounts(rows: seq<Row>, sim: Similarity, i: nat, j: nat, p: Pass)
    requires i < j <= |rows| && DistinctIds(rows) && rows[i].lesson != ""
    ensures var q := Inner(rows, sim, i, j, p);
            Excess(q) >= Excess(p) && (Excess(q) == Excess(p) <==> TakenOnce(rows, sim, i, j, p.seen))
    decreases |rows| - j
  {
    if j < |rows| {
      CompareCounts(rows, sim, i, j, p);
      InnerCounts(rows, sim, i, j + 1, Compare(rows, sim, i, j, p));
    }
  }

  /** Row i has its turn and two later rows that are still there overtake it. */
  ghost predicate TakenTwice(rows: seq<Row>, sim: Similarity, i: nat)
    requires i < |rows|
  {
    var seen := Before(rows, sim, i).seen;
    rows[i].id !in seen && rows[i].lesson != "" && !TakenOnce(rows, sim, i, i + 1, seen)
  }

  lemma {:induction false} BeforeCounts(rows: seq<Row>, sim: Similarity, n: nat)
    requires n <= |rows| && DistinctIds(rows)
    ensures Excess(Before(rows, sim, n)) >= 0
    ensures Excess(Before(rows, sim, n)) == 0 <==> forall i | 0 <= i < n :: !TakenTwice(rows, sim, i)
  {
    if n > 0 {
      BeforeCounts(rows, sim, n - 1);
      var p := Before(rows, sim, n - 1);
      if rows[n - 1].id !in p.seen && rows[n - 1].lesson != "" {
        InnerCounts(rows, sim, n - 1, n, p);
      }
      assert TakenTwice(rows, sim, n - 1) <==> Excess(Before(rows, sim, n)) > Excess(p);
    }
  }

  /** The reported count is the number of rows removed if and only if no row is overtaken twice on its turn. */
  lemma CountIsExactIffNoneTakenTwice(rows: seq<Row>, sim: Similarity)
    requires DistinctIds(rows)
    ensures |Consolidate(rows, sim).deleted| == |Consolidate(rows, sim).seen|
            <==> forall i | 0 <= i < |rows| :: !TakenTwice(rows, sim, i)
  {
    BeforeCounts(rows, sim, |rows|);
    if |rows| >= 2 {
      OuterFromBefore(rows, sim, 0);
    }
  }

  /** A check on the rows alone: if no row has two later, similar rows that moved more money, the count is exact. */
  lemma CountIsExactUnlessOvertakenTwice(rows: seq<Row>, sim: Similarity)
    requires DistinctIds(rows)
    requires forall i, j, k | Overtakes(rows, sim, j, i) && Overtakes(rows, sim, k, i) :: j == k
    ensures |Consolidate(rows, sim).deleted| == |Consolidate(rows, sim).seen|
  {
    CountIsExactIffNoneTakenTwice(rows, sim);
  }

  /**
   It can exceed it: the pass over a row goes on after that row was dropped, so two later, larger rows
   delete it twice. Three similar lessons worth 1, 2 and 3 lose two rows and report three.
   */
  lemma CountCanExceedDropped(sim: Similarity)
    requires forall a, b :: sim(a, b) >= THRESHOLD
    ensures var rows := [Row("a", "x", 1.0, false), Row("b", "y", 2.0, false), Row("c", "z", 3.0, false)];
            Consolidate(rows, sim) == Pass({"a", "b"}, ["a", "a", "b"])
  {
    var rows := [Row("a", "x", 1.0, false), Row("b", "y", 2.0, false), Row("c", "z", 3.0, false)];
    var first := Pass({"a"}, ["a"]);
    assert Compare(rows, sim, 0, 1, Pass({}, [])) == first;
    var second := Pass({"a"}, ["a", "a"]);
    assert Compare(rows, sim, 0, 2, first) == second;
    assert Inner(rows, sim, 0, 1, Pass({}, [])) == second;
    var third := Pass({"a", "b"}, ["a", "a", "b"]);
    assert Compare(rows, sim, 1, 2, second) == third;
    assert Inner(rows, sim, 1, 2, second) == third;
    assert Inner(rows, sim, 2, 3, third) == third;
    assert Outer(rows, sim, 2, third) == third;
    assert Outer(rows, sim, 1, second) == third;
  }

  // ---- exactly who goes ----

  /** Row d loses on the turn of row t: to row t itself if later, or, being row t, to a larger later row still there. */
  ghost predicate Loses(rows: seq<Row>, sim: Similarity, d: nat, t: nat, there: set<nat>)
    requires d < |rows| && t < |rows|
  {
    || (t < d && Similar(rows, sim, t, d) && Abs(rows[t].pnl) >= Abs(rows[d].pnl))
    || (t == d && exists j | j in there :: Overtakes(rows, sim, j, d))
  }

  predicate IsRow(rows: seq<Row>, d: nat) { d < |rows| }

  /** The rows still there before the turn of row n: a row has its turn if it is still there and has a lesson. */
  ghost function There(rows: seq<Row>, sim: Similarity, n: nat): set<nat>
    requires n <= |rows|
  {
    if n == 0 then set d: nat | d < |rows| && IsRow(rows, d)
    else
      var there := There(rows, sim, n - 1);
      if n - 1 !in there || rows[n - 1].lesson == "" then there
      else set d: nat | d in there && d < |rows| && !Loses(rows, sim, d, n - 1, there)
  }

  lemma {:induction false} ThereAreRows(rows: seq<Row>, sim: Similarity, n: nat)
    requires n <= |rows|
    ensures forall d | d in There(rows, sim, n) :: d < |rows|
  {
    if n > 0 {
      ThereAreRows(rows, sim, n - 1);
    }
  }

  /** The inner loop drops the similar, no larger rows from j on, and row i if a larger one from j on is there. */
  lemma {:induction false} InnerDrops(rows: seq<Row>, sim: Similarity, i: nat, j: nat, p: Pass, d: nat)
    requires i < j <= |rows| && d < |rows| && DistinctIds(rows) && rows[i].lesson != ""
    ensures rows[d].id in Inner(rows, sim, i, j, p).seen
            <==> || rows[d].id in p.seen
                 || (j <= d && Similar(rows, sim, i, d) && Abs(rows[i].pnl) >= Abs(rows[d].pnl))
                 || (d == i && exists b: nat :: j <= b && Takes(rows, sim, b, i, p.seen))
    decreases |rows| - j
  {
    if j < |rows| {
      var q := Compare(rows, sim, i, j, p);
      InnerDrops(rows, sim, i, j + 1, q, d);
      CompareDrops(rows, sim, i, j, p, d);
      forall b: nat | j < b
        ensures Takes(rows, sim, b, i, q.seen) <==> Takes(rows, sim, b, i, p.seen)
      {
        if b < |rows| {
          CompareDrops(rows, sim, i, j, p, b);
        }
      }
    }
  }

  lemma CompareDrops(rows: seq<Row>, sim: Similarity, i: nat, j: nat, p: Pass, d: nat)
    requires i < j < |rows| && d < |rows| && DistinctIds(rows) && rows[i].lesson != ""
    ensures rows[d].id in Compare(rows, sim, i, j, p).seen
            <==> || rows[d].id in p.seen
                 || (d == j && Similar(rows, sim, i, j) && Abs(rows[i].pnl) >= Abs(rows[j].pnl))
                 || (d == i && Takes(rows, sim, j, i, p.seen))
  {
  }

  lemma {:induction false} BeforeIsThere(rows: seq<Row>, sim: Similarity, n: nat, d: nat)
    requires n <= |rows| && d < |rows| && DistinctIds(rows)
    ensures rows[d].id in Before(rows, sim, n).seen <==> d !in There(rows, sim, n)
    decreases n, 0
  {
    if n > 0 {
      var t, p, there := n - 1, Before(rows, sim, n - 1), There(rows, sim, n - 1);
      BeforeIsThere(rows, sim, t, d);
      BeforeIsThere(rows, sim, t, t);
      if t in there && rows[t].lesson != "" {
        InnerDrops(rows, sim, t, n, p, d);
        TurnTakes(rows, sim, t, p, there);
      }
    }
  }

  lemma TurnTakes(rows: seq<Row>, sim: Similarity, t: nat, p: Pass, there: set<nat>)
    requires t < |rows| && DistinctIds(rows) && p == Before(rows, sim, t) && there == There(rows, sim, t)
    ensures (exists b: nat :: t + 1 <= b && Takes(rows, sim, b, t, p.seen))
            <==> exists j | j in there :: Overtakes(rows, sim, j, t)
    decreases t, 1
  {
    if b: nat :| t + 1 <= b && Takes(rows, sim, b, t, p.seen) {
      BeforeIsThere(rows, sim, t, b);
      assert b in there;
    }
    if j :| j in there && Overtakes(rows, sim, j, t) {
      BeforeIsThere(rows, sim, t, j);
      assert t + 1 <= j && Takes(rows, sim, j, t, p.seen);
    }
  }

  /**
   Exactly who survives: turn by turn, every row still there that has a lesson drops the later similar rows that moved
   no more money, and goes itself if one of those still there moved more.
   */
  lemma SurvivorsExactly(rows: seq<Row>, sim: Similarity, d: nat)
    requires DistinctIds(rows) && d < |rows|
    ensures Survives(rows, sim, d) <==> d in There(rows, sim, |rows|)
  {
    BeforeIsThere(rows, sim, |rows|, d);
    if |rows| >= 2 {
      OuterFromBefore(rows, sim, 0);
    }
  }

  /** The positions, in order, of exactly the rows that are not stale, and `active` is what stands there. */
  ghost predicate Picks(rows: seq<Row>, active: seq<Row>, at: seq<nat>) {
    && |at| == |active|
    && (forall t | 0 <= t < |at| :: at[t] < |rows| && !rows[at[t]].stale && rows[at[t]] == active[t])
    && (forall s, t | 0 <= s < t < |at| :: at[s] < at[t])
    && forall i: nat | i < |rows| && !rows[i].stale :: exists t :: 0 <= t < |at| && at[t] == i
  }

  /** The rows looked at are those not stale, in order. */
  lemma {:induction false} ActiveAreNotStale(rows: seq<Row>) returns (at: seq<nat>)
    ensures Picks(rows, Active(rows), at)
  {
    at := [];
    if rows != [] {
      var init, last := rows[..|rows| - 1], rows[|rows| - 1];
      var before := ActiveAreNotStale(init);
      at := PicksNext(init, last, rows, before);
    }
  }

  lemma PicksNext(init: seq<Row>, last: Row, rows: seq<Row>, before: seq<nat>) returns (at: seq<nat>)
    requires rows == init + [last] && Picks(init, Active(init), before)
    ensures Picks(rows, Active(rows), at)
  {
    ActiveSnoc(init, last);
    if last.stale {
      at := before;
      PicksStale(init, last, Active(init), before);
    } else {
      at := before + [|init|];
      PicksSnoc(init, last, Active(init), before);
    }
  }

  lemma {:induction false} ActiveSnoc(rows: seq<Row>, last: Row)
    ensures Active(rows + [last]) == if last.stale then Active(rows) else Active(rows) + [last]
  {
    if rows != [] {
      ActiveSnoc(rows[1..], last);
      assert (rows + [last])[1..] == rows[1..] + [last];
    } else {
      assert (rows + [last])[1..] == [];
    }
  }

  lemma PicksSnoc(rows: seq<Row>, last: Row, active: seq<Row>, at: seq<nat>)
    requires Picks(rows, active, at) && !last.stale
    ensures Picks(rows + [last], active + [last], at + [|rows|])
  {
    forall i: nat | i < |rows + [last]| && !(rows + [last])[i].stale
      ensures exists t :: 0 <= t < |at + [|rows|]| && (at + [|rows|])[t] == i
    {
      if i < |rows| {
        assert !rows[i].stale;
        var t :| 0 <= t < |at| && at[t] == i;
        assert (at + [|rows|])[t] == i;
      } else {
        assert (at + [|rows|])[|at|] == i;
      }
    }
  }

  lemma PicksStale(rows: seq<Row>, last: Row, active: seq<Row>, at: seq<nat>)
    requires Picks(rows, active, at) && last.stale
    ensures Picks(rows + [last], active, at)
  {
    forall i: nat | i < |rows + [last]| && !(rows + [last])[i].stale
      ensures exists t :: 0 <= t < |at| && at[t] == i
    {
      assert !rows[i].stale;
    }
  }
}
