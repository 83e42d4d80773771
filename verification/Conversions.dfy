/**
 Operator conversions in the trade log. The command worker appends a row for every token conversion to the table
 the loop writes its trades to, and recovery replays whatever the table holds.
 */
module Conversions {
  import opened Market
  import opened Ledgers
  import opened Loops
  import opened Ordering
  import opened Recovery

  const MAX_IMPACT: real := 0.05

  /** A conversion that went through: what was asked, quoted and paid, and the wall clock when it was recorded. */
  datatype Conversion = Conversion(pair: string, usd: real, amountIn: real, amountOut: real, impact: real, gas: real,
                                   txHash: string, at: int)

  /** The worker refuses other amounts and larger quoted impacts; gas is never negative. */
  predicate Accepted(c: Conversion) { c.usd > 0.0 && c.impact <= MAX_IMPACT && c.gas >= 0.0 }

  function Ratio(out: real, in_: real): real { if in_ == 0.0 then 0.0 else out / in_ }

  /** A purchase, at the price of one token in the other. */
  function ConversionRow(c: Conversion): TradeRow {
    TradeRow(Buy, c.usd, c.pair, Ratio(c.amountOut, c.amountIn), Costs(0.0, c.gas, Worth(c.usd, c.impact)),
             MainnetMode, Some(c.txHash), c.at)
  }

  /**
   A conversion is filed as a trade on the main network under its pair, hash and time. Replayed, it buys its dollars'
   worth at tokens received per token given, and pays gas and quoted impact on top.
   */
  lemma ConversionReplaysAsPurchase(l: Ledger, c: Conversion)
    requires c.usd > 0.0 && c.amountIn > 0.0 && c.amountOut > 0.0
    ensures var row := ConversionRow(c);
            row.mode == MainnetMode && row.symbol == c.pair && row.txHash == Some(c.txHash) && row.timestamp == c.at
    ensures var m := Apply(l, RowFill(ConversionRow(c)));
            && m.gas == l.gas + c.gas && m.fees == l.fees
            && (m.units - l.units) * c.amountOut == c.usd * c.amountIn
            && m.cash == l.cash - c.usd - c.gas - c.usd * c.impact
            && m.realizedTotal == l.realizedTotal
  {
    var price := Ratio(c.amountOut, c.amountIn);
    assert price * c.amountIn == c.amountOut;
    PositiveRatio(price, c.amountIn);
    UnitsTimesPrice(c.usd, price);
    Rearrange(UnitsAt(c.usd, price), price, c.amountIn);
  }

  lemma PositiveRatio(price: real, amount: real)
    requires amount > 0.0 && price * amount > 0.0
    ensures price > 0.0
  {
  }

  lemma Rearrange(units: real, price: real, amount: real)
    ensures units * (price * amount) == (units * price) * amount
  {
  }

  /** One row of the table, in the order of writing. */
  datatype Entry = Own(trade: TradeRow) | Converted(conversion: Conversion) {
    function Row(): TradeRow { if Own? then trade else ConversionRow(conversion) }

    /** Cash the row takes out of an account that did not spend it. */
    function Outlay(): real {
      if Own? then 0.0 else conversion.usd + conversion.gas + Worth(conversion.usd, conversion.impact)
    }

    /** A conversion that adds units to the position. */
    predicate Adds() { Converted? && UnitsAt(conversion.usd, Ratio(conversion.amountOut, conversion.amountIn)) != 0.0 }
  }

  function EntryTime(e: Entry): int { e.Row().timestamp }

  function AllRows(entries: seq<Entry>): seq<TradeRow> {
    seq(|entries|, i requires 0 <= i < |entries| => entries[i].Row())
  }

  /** The rows the loop wrote. */
  function OwnRows(entries: seq<Entry>): seq<TradeRow> {
    if entries == [] then []
    else
      var last := entries[|entries| - 1];
      OwnRows(entries[..|entries| - 1]) + if last.Own? then [last.trade] else []
  }

  function Outlays(entries: seq<Entry>): real {
    if entries == [] then 0.0 else Outlays(entries[..|entries| - 1]) + entries[|entries| - 1].Outlay()
  }

  function Replay(initial: real, rows: seq<TradeRow>): Ledger { ApplyAll(Open(initial), RowFills(rows)) }

  lemma ReplaySnoc(initial: real, rows: seq<TradeRow>, row: TradeRow)
    ensures Replay(initial, rows + [row]) == Apply(Replay(initial, rows), RowFill(row))
  {
    assert RowFills(rows + [row])[..|rows|] == RowFills(rows);
  }

  /** The last entry's part of the two replays. */
  lemma LastEntry(initial: real, entries: seq<Entry>)
    requires entries != []
    ensures var init, e := entries[..|entries| - 1], entries[|entries| - 1];
            && Replay(initial, AllRows(entries)) == Apply(Replay(initial, AllRows(init)), RowFill(e.Row()))
            && Replay(initial, OwnRows(entries))
               == (if e.Own? then Apply(Replay(initial, OwnRows(init)), RowFill(e.Row()))
                   else Replay(initial, OwnRows(init)))
  {
    var init, e := entries[..|entries| - 1], entries[|entries| - 1];
    assert AllRows(entries) == AllRows(init) + [e.Row()];
    ReplaySnoc(initial, AllRows(init), e.Row());
    if e.Own? {
      ReplaySnoc(initial, OwnRows(init), e.trade);
    } else {
      assert OwnRows(entries) == OwnRows(init);
    }
  }

  lemma {:induction false} ReplayedCash(initial: real, entries: seq<Entry>)
    ensures Replay(initial, AllRows(entries)).cash == Replay(initial, OwnRows(entries)).cash - Outlays(entries)
  {
    if entries != [] {
      ReplayedCash(initial, entries[..|entries| - 1]);
      LastEntry(initial, entries);
    }
  }

  lemma PaidIsPositive(usd: real, impact: real)
    requires usd > 0.0 && impact > -1.0
    ensures usd + Worth(usd, impact) > 0.0
  {
    var rest := impact + 1.0;
    assert usd * rest > 0.0;
    assert usd * rest == usd + usd * impact;
  }

  lemma {:induction false} OutlaysArePositive(entries: seq<Entry>)
    requires forall e | e in entries && e.Converted? :: Accepted(e.conversion) && e.conversion.impact > -1.0
    ensures Outlays(entries) >= 0.0 && (Outlays(entries) == 0.0 <==> forall e | e in entries :: e.Own?)
  {
    if entries != [] {
      var init, last := entries[..|entries| - 1], entries[|entries| - 1];
      OutlaysArePositive(init);
      assert entries == init + [last];
      if last.Converted? {
        PaidIsPositive(last.conversion.usd, last.conversion.impact);
      }
    }
  }

  // ---- the position ----

  predicate SizesProper(entries: seq<Entry>) {
    forall e | e in entries :: if e.Own? then e.trade.sizeUsd >= 0.0 else Accepted(e.conversion)
  }

  /** The replay stood flat after k rows, and no conversion added to it since. */
  ghost predicate FlatSince(initial: real, entries: seq<Entry>, k: nat)
    requires k <= |entries|
  {
    Replay(initial, AllRows(entries[..k])).units == 0.0 && forall i | k <= i < |entries| :: !entries[i].Adds()
  }

  /** Everything the conversions added had been sold again, on the books. */
  ghost predicate SoldOff(initial: real, entries: seq<Entry>) {
    exists k: nat :: k <= |entries| && FlatSince(initial, entries, k)
  }

  lemma FlatSinceSnoc(initial: real, init: seq<Entry>, last: Entry, k: nat)
    requires k <= |init|
    ensures FlatSince(initial, init + [last], k) <==> FlatSince(initial, init, k) && !last.Adds()
  {
    var entries := init + [last];
    assert entries[..k] == init[..k];
    assert entries[|init|] == last;
    assert forall i | 0 <= i < |init| :: entries[i] == init[i];
  }

  lemma FlatAtEnd(initial: real, entries: seq<Entry>)
    ensures FlatSince(initial, entries, |entries|) <==> Replay(initial, AllRows(entries)).units == 0.0
  {
    assert entries[..|entries|] == entries;
  }

  lemma SoldOffSnoc(initial: real, init: seq<Entry>, last: Entry)
    ensures var entries := init + [last];
            SoldOff(initial, entries) <==>
              Replay(initial, AllRows(entries)).units == 0.0 || (SoldOff(initial, init) && !last.Adds())
  {
    var entries := init + [last];
    FlatAtEnd(initial, entries);
    if SoldOff(initial, init) && !last.Adds() {
      var k: nat :| k <= |init| && FlatSince(initial, init, k);
      FlatSinceSnoc(initial, init, last, k);
    }
    if SoldOff(initial, entries) {
      var k: nat :| k <= |entries| && FlatSince(initial, entries, k);
      if k <= |init| {
        FlatSinceSnoc(initial, init, last, k);
      }
    }
  }

  lemma {:induction false} ReplayedPosition(initial: real, entries: seq<Entry>)
    requires SizesProper(entries)
    ensures var own, all := Replay(initial, OwnRows(entries)), Replay(initial, AllRows(entries));
            Trails(own, all) && (own.units == all.units <==> SoldOff(initial, entries))
  {
    if entries == [] {
      assert FlatSince(initial, entries, 0);
    } else {
      var init, e := entries[..|entries| - 1], entries[|entries| - 1];
      ReplayedPosition(initial, init);
      LastEntry(initial, entries);
      SoldOffSnoc(initial, init, e);
      assert entries == init + [e];
      EntryKeepsTrailing(Replay(initial, OwnRows(init)), Replay(initial, AllRows(init)), e);
      if Replay(initial, AllRows(init)).units == 0.0 {
        FlatAtEnd(initial, init);
      }
    }
  }

  lemma EntryKeepsTrailing(l: Ledger, m: Ledger, e: Entry)
    requires Trails(l, m) && (if e.Own? then e.trade.sizeUsd >= 0.0 else Accepted(e.conversion))
    ensures var m' := Apply(m, RowFill(e.Row()));
            var l' := if e.Own? then Apply(l, RowFill(e.Row())) else l;
            && Trails(l', m')
            && (l'.units == m'.units <==>
                  if e.Own? then l.units == m.units || m'.units == 0.0 else l.units == m.units && !e.Adds())
            && (e.Adds() ==> m'.units > 0.0)
  {
    if e.Own? {
      FillKeepsTrailing(l, m, RowFill(e.Row()));
    } else {
      var row := e.Row();
      if row.price > 0.0 {
        UnitsOrder(row.sizeUsd, 0.0, row.price);
      }
    }
  }

  // ---- the order of the replay ----

  lemma {:induction false} InsertRows(e: Entry, entries: seq<Entry>)
    ensures AllRows(Insert(e, entries, EntryTime)) == Insert(e.Row(), AllRows(entries), TradeTime)
  {
    if entries != [] {
      assert AllRows(entries)[..|entries| - 1] == AllRows(entries[..|entries| - 1]);
      InsertRows(e, entries[..|entries| - 1]);
    }
  }

  lemma {:induction false} SortRows(entries: seq<Entry>)
    ensures AllRows(StableSort(entries, EntryTime)) == StableSort(AllRows(entries), TradeTime)
  {
    if entries != [] {
      assert AllRows(entries)[..|entries| - 1] == AllRows(entries[..|entries| - 1]);
      SortRows(entries[..|entries| - 1]);
      InsertRows(entries[|entries| - 1], StableSort(entries[..|entries| - 1], EntryTime));
    }
  }

  lemma {:induction false} InsertOutlay(e: Entry, entries: seq<Entry>)
    ensures Outlays(Insert(e, entries, EntryTime)) == Outlays(entries) + e.Outlay()
  {
    if entries != [] {
      InsertOutlay(e, entries[..|entries| - 1]);
    }
  }

  lemma {:induction false} SortOutlays(entries: seq<Entry>)
    ensures Outlays(StableSort(entries, EntryTime)) == Outlays(entries)
  {
    if entries != [] {
      SortOutlays(entries[..|entries| - 1]);
      InsertOutlay(entries[|entries| - 1], StableSort(entries[..|entries| - 1], EntryTime));
    }
  }

  lemma {:induction false} OwnRowsSnoc(entries: seq<Entry>, e: Entry)
    ensures OwnRows(entries + [e]) == OwnRows(entries) + if e.Own? then [e.trade] else []
  {
    assert (entries + [e])[..|entries|] == entries;
  }

  lemma OwnMembers(init: seq<Entry>, last: Entry)
    ensures forall r | r in OwnRows(init) :: r in OwnRows(init + [last])
    ensures last.Own? ==> last.trade in OwnRows(init + [last])
  {
    OwnRowsSnoc(init, last);
  }

  /** A new latest own row stays behind every other own row. */
  lemma {:induction false} InsertOwnLast(e: Entry, entries: seq<Entry>)
    requires e.Own? ==> forall r | r in OwnRows(entries) :: r.timestamp <= e.trade.timestamp
    ensures OwnRows(Insert(e, entries, EntryTime)) == OwnRows(entries) + if e.Own? then [e.trade] else []
  {
    if entries == [] || EntryTime(entries[|entries| - 1]) <= EntryTime(e) {
      OwnRowsSnoc(entries, e);
    } else {
      var init, last := entries[..|entries| - 1], entries[|entries| - 1];
      assert entries == init + [last];
      OwnMembers(init, last);
      InsertOwnLast(e, init);
      OwnRowsSnoc(init, last);
      OwnRowsSnoc(Insert(e, init, EntryTime), last);
    }
  }

  /** Sorting by time moves conversions about, but keeps the loop's rows in their order. */
  lemma {:induction false} SortOwn(entries: seq<Entry>)
    requires SortedBy(OwnRows(entries), TradeTime)
    ensures OwnRows(StableSort(entries, EntryTime)) == OwnRows(entries)
  {
    if entries != [] {
      var init, last := entries[..|entries| - 1], entries[|entries| - 1];
      OwnRowsSnoc(init, last);
      assert init + [last] == entries;
      var own := OwnRows(init);
      assert forall i | 0 <= i < |own| :: own[i] == OwnRows(entries)[i];
      if last.Own? {
        assert OwnRows(entries)[|own|] == last.trade;
        assert forall i | 0 <= i < |own| :: TradeTime(OwnRows(entries)[i]) <= TradeTime(OwnRows(entries)[|own|]);
      }
      SortOwn(init);
      InsertOwnLast(last, StableSort(init, EntryTime));
    }
  }

  // ---- recovery ----

  /** What conversions among the loop's rows do to the books recovery rebuilds. */
  ghost predicate Spoilt(recovered: Ledger, live: Ledger, initial: real, entries: seq<Entry>) {
    && recovered.cash == live.cash - Outlays(entries)
    && ((forall e | e in entries && e.Converted? :: Accepted(e.conversion) && e.conversion.impact > -1.0) ==>
          (recovered.cash == live.cash <==> forall e | e in entries :: e.Own?))
    && (SizesProper(entries) ==>
          && 0.0 <= live.units <= recovered.units
          && (recovered.units == live.units <==> SoldOff(initial, StableSort(entries, EntryTime))))
  }

  lemma SortedSizes(entries: seq<Entry>)
    requires SizesProper(entries)
    ensures SizesProper(StableSort(entries, EntryTime))
  {
    SortKeeps(entries, EntryTime);
    forall e | e in StableSort(entries, EntryTime)
      ensures e in entries
    {
      assert e in multiset(StableSort(entries, EntryTime));
    }
  }

  lemma ReplayOfAll(store: Store, initial: real, entries: seq<Entry>)
    requires |entries| <= RECENT && SortedBy(OwnRows(entries), TradeTime)
    ensures var r := RecoveredLedger(store.(trades := AllRows(entries)), initial);
            var own := Replay(initial, OwnRows(entries));
            Spoilt(r, own, initial, entries)
  {
    var sorted := StableSort(entries, EntryTime);
    SortRows(entries);
    SortOwn(entries);
    SortOutlays(entries);
    SortPermutes(AllRows(entries), TradeTime);
    ReverseTwice(StableSort(AllRows(entries), TradeTime));
    ReplayedCash(initial, sorted);
    if SizesProper(entries) {
      SortedSizes(entries);
      ReplayedPosition(initial, sorted);
    }
    if forall e | e in entries && e.Converted? :: Accepted(e.conversion) && e.conversion.impact > -1.0 {
      OutlaysArePositive(entries);
    }
  }

  /**
   After any run that records its fills, with conversions written among its rows at any times and at most 500 rows
   in all: the recovered cash is short by exactly what the conversions paid, so it is right if and only if there was
   none; and the recovered position is too large, unless what they added was sold again on the recovered books.
   */
  lemma ConversionsSpoilRecovery(initial: real, mode: Mode, cfg: Config, steps: seq<Step>, entries: seq<Entry>)
    requires ReliableRun(Boot(initial, mode), cfg, steps)
    requires |entries| <= RECENT && OwnRows(entries) == RunSteps(Boot(initial, mode), cfg, steps).store.trades
    ensures var s := RunSteps(Boot(initial, mode), cfg, steps);
            Spoilt(RecoveredLedger(s.store.(trades := AllRows(entries)), initial), s.ledger, initial, entries)
  {
    var now := RunIsMirrored(initial, mode, cfg, steps);
    MirrorSpoilt(RunSteps(Boot(initial, mode), cfg, steps), initial, now, entries);
  }

  /** The live accounts are the replay of the loop's own rows. */
  lemma MirrorReplays(s: Loop, initial: real, now: int)
    requires Mirrored(s, initial, now)
    ensures var own := Replay(initial, s.store.trades); own.cash == s.ledger.cash && own.units == s.ledger.units
  {
    assert Accounts(s.ledger) == Accounts(Replay(initial, s.store.trades));
  }

  lemma MirrorSpoilt(s: Loop, initial: real, now: int, entries: seq<Entry>)
    requires Mirrored(s, initial, now) && |entries| <= RECENT && OwnRows(entries) == s.store.trades
    ensures Spoilt(RecoveredLedger(s.store.(trades := AllRows(entries)), initial), s.ledger, initial, entries)
  {
    MirrorReplays(s, initial, now);
    SpoiltAlike(RecoveredLedger(s.store.(trades := AllRows(entries)), initial), s, initial, entries);
  }

  lemma SpoiltAlike(recovered: Ledger, s: Loop, initial: real, entries: seq<Entry>)
    requires |entries| <= RECENT && SortedBy(OwnRows(entries), TradeTime)
    requires recovered == RecoveredLedger(s.store.(trades := AllRows(entries)), initial)
    requires var own := Replay(initial, OwnRows(entries)); own.cash == s.ledger.cash && own.units == s.ledger.units
    ensures Spoilt(recovered, s.ledger, initial, entries)
  {
    ReplayOfAll(s.store, initial, entries);
  }
}
