/**
 What the live ledger's running figures say about the fills it was given, over every fill sequence: the loss
 streak, the cumulative costs, the realised total and the average entry.
 */
module LedgerLaws {
  import opened Market
  import opened Ledgers
  import opened Executors
  import opened Loops
  import opened LoopMoves
  import opened Recovery

  /** The ledger after the first n fills. */
  function Upto(initial: real, fills: seq<Fill>, n: nat): Ledger
    requires n <= |fills|
  {
    ApplyAll(Open(initial), fills[..n])
  }

  /** Fill i is a sale, and the realised total fell. */
  predicate LosingSale(initial: real, fills: seq<Fill>, i: nat)
    requires i < |fills|
  {
    && fills[i].order.side.Sell?
    && Upto(initial, fills, i + 1).realizedTotal < Upto(initial, fills, i).realizedTotal
  }

  function Sales(fills: seq<Fill>): nat {
    if fills == [] then 0
    else Sales(fills[..|fills| - 1]) + if fills[|fills| - 1].order.side.Sell? then 1 else 0
  }

  /** Every sale from fill k on lost, and the one right before it did not. */
  ghost predicate StreakFrom(initial: real, fills: seq<Fill>, k: nat) {
    && k <= |fills|
    && (forall i: nat | k <= i < |fills| && fills[i].order.side.Sell? :: LosingSale(initial, fills, i))
    && (k > 0 ==> fills[k - 1].order.side.Sell? && !LosingSale(initial, fills, k - 1))
  }

  lemma UptoWhole(initial: real, fills: seq<Fill>)
    ensures Upto(initial, fills, |fills|) == ApplyAll(Open(initial), fills)
  {
    assert fills[..|fills|] == fills;
  }

  lemma LosingInPrefix(initial: real, fills: seq<Fill>, i: nat)
    requires i < |fills| - 1
    ensures LosingSale(initial, fills[..|fills| - 1], i) == LosingSale(initial, fills, i)
  {
    var init := fills[..|fills| - 1];
    assert init[..i] == fills[..i] && init[..i + 1] == fills[..i + 1];
  }

  lemma LastFill(initial: real, fills: seq<Fill>)
    requires fills != []
    ensures var before := ApplyAll(Open(initial), fills[..|fills| - 1]);
            var after := ApplyAll(Open(initial), fills);
            && after == Apply(before, fills[|fills| - 1])
            && (LosingSale(initial, fills, |fills| - 1) <==>
                  fills[|fills| - 1].order.side.Sell? && after.realizedTotal < before.realizedTotal)
  {
    UptoWhole(initial, fills);
  }

  lemma StreakGrows(initial: real, fills: seq<Fill>, k: nat)
    requires fills != [] && StreakFrom(initial, fills[..|fills| - 1], k)
    requires fills[|fills| - 1].order.side.Sell? ==> LosingSale(initial, fills, |fills| - 1)
    ensures StreakFrom(initial, fills, k)
  {
    var init := fills[..|fills| - 1];
    forall i: nat | i < |init|
      ensures LosingSale(initial, init, i) == LosingSale(initial, fills, i)
    {
      LosingInPrefix(initial, fills, i);
    }
    forall i: nat | k <= i < |fills| && fills[i].order.side.Sell?
      ensures LosingSale(initial, fills, i)
    {
      if i < |init| {
        assert init[i] == fills[i];
      }
    }
  }

  lemma SalesSnoc(fills: seq<Fill>, k: nat)
    requires k < |fills|
    ensures Sales(fills[k..])
         == Sales(fills[..|fills| - 1][k..]) + if fills[|fills| - 1].order.side.Sell? then 1 else 0
  {
    assert fills[k..][..|fills| - 1 - k] == fills[..|fills| - 1][k..];
  }

  /** The streak is the number of sales after the last one that did not lower the realised total. */
  lemma {:induction false} LossesCountTheStreak(initial: real, fills: seq<Fill>) returns (k: nat)
    ensures StreakFrom(initial, fills, k)
    ensures ApplyAll(Open(initial), fills).losses == Sales(fills[k..])
  {
    if fills == [] {
      k := 0;
    } else {
      k := LossesCountTheStreak(initial, fills[..|fills| - 1]);
      LastFill(initial, fills);
      if fills[|fills| - 1].order.side.Buy? || LosingSale(initial, fills, |fills| - 1) {
        StreakGrows(initial, fills, k);
        SalesSnoc(fills, k);
      } else {
        k := |fills|;
      }
    }
  }

  lemma {:induction false} SalesSplit(fills: seq<Fill>, k: nat)
    requires k <= |fills|
    ensures Sales(fills) == Sales(fills[..k]) + Sales(fills[k..])
    decreases |fills|
  {
    if k < |fills| {
      var init := fills[..|fills| - 1];
      SalesSplit(init, k);
      assert init[..k] == fills[..k] && fills[k..][..|fills| - 1 - k] == init[k..];
    } else {
      assert fills[..k] == fills;
    }
  }

  lemma SalesFrom(fills: seq<Fill>, i: nat, k: nat)
    requires i <= k <= |fills|
    ensures Sales(fills[i..]) == Sales(fills[i..k]) + Sales(fills[k..])
  {
    SalesSplit(fills[i..], k - i);
    assert fills[i..][..k - i] == fills[i..k] && fills[i..][k - i..] == fills[k..];
  }

  lemma OneSale(fills: seq<Fill>, i: nat)
    requires i < |fills| && fills[i].order.side.Sell?
    ensures Sales(fills[i..i + 1]) == 1
  {
    assert fills[i..i + 1][..0] == [];
  }

  /** A sale before position k is one more than there are from k on. */
  lemma EarlierSaleCounts(fills: seq<Fill>, i: nat, k: nat)
    requires i < k <= |fills| && fills[i].order.side.Sell?
    ensures Sales(fills[i..]) > Sales(fills[k..])
  {
    SalesFrom(fills, i, i + 1);
    OneSale(fills, i);
    SalesFrom(fills, i + 1, k);
  }

  /** There are n sales, and each of the last n lowered the realised total. */
  ghost predicate LastSalesLost(initial: real, fills: seq<Fill>, n: nat) {
    && n <= Sales(fills)
    && forall i: nat | i < |fills| && fills[i].order.side.Sell? && Sales(fills[i..]) <= n ::
         LosingSale(initial, fills, i)
  }

  /** What a circuit breaker at n reads: the streak has reached n iff the last n sales each lost. */
  lemma StreakReachedIffLastSalesLost(initial: real, fills: seq<Fill>, n: nat)
    ensures ApplyAll(Open(initial), fills).losses >= n <==> LastSalesLost(initial, fills, n)
  {
    var k := LossesCountTheStreak(initial, fills);
    SalesSplit(fills, k);
    if n <= Sales(fills[k..]) {
      forall i: nat | i < |fills| && fills[i].order.side.Sell? && Sales(fills[i..]) <= n
        ensures LosingSale(initial, fills, i)
      {
        if i < k {
          EarlierSaleCounts(fills, i, k);
        }
      }
    } else if k > 0 {
      SalesFrom(fills, k - 1, k);
      OneSale(fills, k - 1);
      assert !LosingSale(initial, fills, k - 1);
    } else {
      assert fills[0..] == fills;
    }
  }

  // ---- the streak of a running loop ----

  /** The loop's accounts are those of its fills, booked in order. */
  ghost predicate BooksItsFills(s: Loop, initial: real) {
    Accounts(s.ledger) == Accounts(ApplyAll(Open(initial), s.fills))
  }

  lemma SubmissionBooksItsFill(a: Loop, b: Loop, key: Key, order: Order, inp: Inputs, initial: real)
    requires Wrote(a, b, key, order, inp) && BooksItsFills(a, initial)
    ensures BooksItsFills(b, initial)
  {
    if WroteFill(a, b, key, order, inp) {
      var fill := inp.venue(key, order).report.fill.value;
      AccountsIgnoreMarks(a.ledger, ApplyAll(Open(initial), a.fills), fill);
      ApplySnoc(Open(initial), a.fills, fill);
    } else {
      assert Unfilled(a, b);
    }
  }

  lemma MoveBooksItsFills(s: Loop, cfg: Config, inp: Inputs, bar: Bar, m: Move, initial: real)
    requires BooksItsFills(s, initial)
    ensures BooksItsFills(Do(s, cfg, inp, bar, m), initial)
  {
    match m
    case AskMove(channel, order) =>
      SubmitWrites(s, cfg, inp, channel, order, bar);
      SubmissionBooksItsFill(s, Do(s, cfg, inp, bar, m), Key(cfg.symbol, bar.timestamp, channel), order, inp, initial);
    case CloseMove(tradeId) =>
      CloseWrites(s, cfg, inp, bar, tradeId);
    case MarkMove(price) =>
      MarkRaisesPeak(s.ledger, price);
    case GateMove(block) =>
  }

  lemma {:induction false} MovesBookTheirFills(s: Loop, cfg: Config, inp: Inputs, bar: Bar, moves: seq<Move>,
                                               initial: real)
    requires BooksItsFills(s, initial)
    ensures BooksItsFills(DoAll(s, cfg, inp, bar, moves), initial)
  {
    if moves != [] {
      MovesBookTheirFills(s, cfg, inp, bar, moves[..|moves| - 1], initial);
      MoveBooksItsFills(DoAll(s, cfg, inp, bar, moves[..|moves| - 1]), cfg, inp, bar, moves[|moves| - 1], initial);
    }
  }

  lemma CycleBooksItsFills(s: Loop, t: Loop, cfg: Config, step: Step, initial: real)
    requires Cycles(s, t, cfg, step) && BooksItsFills(s, initial)
    ensures BooksItsFills(t, initial)
  {
    var p, events, moves :| CycleVia(s, t, cfg, step, p, events, moves);
    assert p.fills == s.fills;
    MovesBookTheirFills(p, cfg, step.inputs, step.Bar(), moves, initial);
  }

  /** Whatever happens in a run, recorded or not, its accounts are those of its fills. */
  lemma {:induction false} RunBooksItsFills(initial: real, mode: Mode, cfg: Config, steps: seq<Step>)
    ensures BooksItsFills(RunSteps(Boot(initial, mode), cfg, steps), initial)
    decreases |steps|
  {
    if steps != [] {
      var init, last := steps[..|steps| - 1], steps[|steps| - 1];
      RunBooksItsFills(initial, mode, cfg, init);
      var s := RunSteps(Boot(initial, mode), cfg, init);
      CycleCycles(s, cfg, last);
      CycleBooksItsFills(s, RunSteps(Boot(initial, mode), cfg, steps), cfg, last, initial);
    }
  }

  /** In every run of the loop, what the breaker reads has reached n iff the last n sales it filled each lost. */
  lemma LoopStreakReachedIffLastSalesLost(initial: real, mode: Mode, cfg: Config, steps: seq<Step>, n: nat)
    ensures var s := RunSteps(Boot(initial, mode), cfg, steps);
            s.ledger.losses >= n <==> LastSalesLost(initial, s.fills, n)
  {
    RunBooksItsFills(initial, mode, cfg, steps);
    StreakReachedIffLastSalesLost(initial, RunSteps(Boot(initial, mode), cfg, steps).fills, n);
  }

  // ---- running totals ----

  function FeesOf(fills: seq<Fill>): real {
    if fills == [] then 0.0 else FeesOf(fills[..|fills| - 1]) + fills[|fills| - 1].costs.fee
  }

  function GasOf(fills: seq<Fill>): real {
    if fills == [] then 0.0 else GasOf(fills[..|fills| - 1]) + fills[|fills| - 1].costs.gas
  }

  /** Fees and gas add up over every fill, bought or sold. */
  lemma {:induction false} CostsAddUp(initial: real, fills: seq<Fill>)
    ensures ApplyAll(Open(initial), fills).fees == FeesOf(fills)
    ensures ApplyAll(Open(initial), fills).gas == GasOf(fills)
  {
    if fills != [] {
      CostsAddUp(initial, fills[..|fills| - 1]);
    }
  }

  /**
   Buying realises nothing and, at a positive price, adds its size to the position at cost; selling leaves the
   average entry alone.
   */
  lemma EntryMovesOnlyByBuying(l: Ledger, f: Fill)
    requires l.units >= 0.0
    ensures var m := Apply(l, f);
            if f.order.side.Sell? then m.avgEntry == l.avgEntry
            else
              && m.realizedTotal == l.realizedTotal && m.losses == l.losses
              && (f.price > 0.0 && f.order.sizeUsd >= 0.0 ==>
                    Worth(m.units, m.avgEntry) == Worth(l.units, l.avgEntry) + f.order.sizeUsd)
  {
    if f.order.side.Buy? && f.price > 0.0 && f.order.sizeUsd >= 0.0 {
      UnitsOrder(f.order.sizeUsd, 0.0, f.price);
      UnitsTimesPrice(f.order.sizeUsd, f.price);
      BlendKeepsCost(l, UnitsAt(f.order.sizeUsd, f.price), f.price);
    }
  }
}
