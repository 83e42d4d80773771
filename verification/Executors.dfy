/** Exactly-once execution: the idempotency table every executor shares, and the paper executor. */
module Executors {
  import opened Market

  /** The suffix an overlay adds to a cycle id before it asks the executor. */
  datatype Channel = Base | Autopilot | Kol | Activity

  datatype Key = Key(symbol: string, timestamp: int, channel: Channel)

  datatype Status = FILLED | SIMULATED | REJECTED | FAILED | DUPLICATE

  datatype Report = Report(status: Status, order: Order, fill: Option<Fill>, txHash: Option<string>) {
    predicate IsFill() { status.FILLED? && fill.Some? }

    predicate IsRemembered() { status.FILLED? || status.SIMULATED? }
  }

  /** What the venue does with an order: a report, or an exception that escapes the executor. */
  datatype Reply = Answer(report: Report) | Raises {
    predicate IsFill() { Answer? && report.IsFill() }

    predicate IsRemembered() { Answer? && report.IsRemembered() }

    /** Venues never report DUPLICATE themselves, and a filled report carries a fill of its own order. */
    predicate Proper() {
      Answer? ==>
        && !report.status.DUPLICATE?
        && (report.status.FILLED? <==> report.fill.Some?)
        && (report.fill.Some? ==> report.fill.value.order == report.order)
    }
  }

  type Seen = map<Key, Report>

  function CheckDupe(seen: Seen, key: Key, order: Order): Option<Report> {
    if key in seen && seen[key].IsRemembered()
    then Some(Report(DUPLICATE, order, seen[key].fill, seen[key].txHash))
    else None
  }

  function Remember(seen: Seen, key: Key, report: Report): Seen {
    if report.IsRemembered() then seen[key := report] else seen
  }

  /** Crash recovery's marker: a filled report without a fill. */
  function MarkSeen(seen: Seen, key: Key): Seen {
    seen[key := Report(FILLED, Order(Buy, 0.0, "", 0), None, None)]
  }

  datatype Outcome = Outcome(reply: Reply, seen: Seen)

  /** One call: a remembered key is answered from the table, any other goes to the venue. */
  function ExecuteOnce(seen: Seen, key: Key, order: Order, venue: Reply): Outcome {
    var dupe := CheckDupe(seen, key, order);
    if dupe.Some? then Outcome(Answer(dupe.value), seen)
    else if venue.Raises? then Outcome(Raises, seen)
    else Outcome(venue, Remember(seen, key, venue.report))
  }

  /** The table in front of any venue; the loop swaps it when the trading mode changes. */
  class VenueExecutor {
    var seen: Seen

    constructor ()
      ensures seen == map[]
    {
      seen := map[];
    }

    method Execute(order: Order, key: Key, venue: Reply) returns (reply: Reply)
      modifies this
      ensures Outcome(reply, seen) == ExecuteOnce(old(seen), key, order, venue)
    {
      var dupe := CheckDupe(seen, key, order);
      if dupe.Some? {
        return Answer(dupe.value);
      }
      if venue.Answer? {
        seen := Remember(seen, key, venue.report);
      }
      return venue;
    }

    method Mark(key: Key)
      modifies this
      ensures seen == MarkSeen(old(seen), key)
    {
      seen := seen[key := Report(FILLED, Order(Buy, 0.0, "", 0), None, None)];
    }
  }

  function PaperReply(order: Order, bar: Bar, cost: CostModel): Reply {
    var costs := cost(order, bar);
    Answer(Report(FILLED, order, Some(Fill(order, SlippedPrice(order, bar.close, costs.slippage), costs)), None))
  }

  class PaperExecutor {
    var seen: Seen
    const cost: CostModel

    constructor (cost: CostModel)
      ensures seen == map[] && this.cost == cost
    {
      seen := map[];
      this.cost := cost;
    }

    method Execute(order: Order, bar: Bar, key: Key) returns (report: Report)
      modifies this
      ensures Outcome(Answer(report), seen) == ExecuteOnce(old(seen), key, order, PaperReply(order, bar, cost))
      ensures CheckDupe(old(seen), key, order).None? ==>
                && report.IsFill() && report.txHash.None? && report.order == order == report.fill.value.order
                && report.fill.value.costs == cost(order, bar)
    {
      var dupe := CheckDupe(seen, key, order);
      if dupe.Some? {
        return dupe.value;
      }
      var costs := cost(order, bar);
      var price := SlippedPrice(order, bar.close, costs.slippage);
      report := Report(FILLED, order, Some(Fill(order, price, costs)), None);
      seen := Remember(seen, key, report);
    }
  }

  // ---- exactly-once over arbitrary call sequences ----

  datatype Call = Call(key: Key, order: Order, venue: Reply)

  datatype Session = Session(replies: seq<Reply>, seen: Seen)

  /** All calls ever made on one executor, in order, starting from table `seen`. */
  function Serve(seen: Seen, calls: seq<Call>): Session {
    if calls == [] then Session([], seen)
    else
      var before := Serve(seen, calls[..|calls| - 1]);
      var c := calls[|calls| - 1];
      var o := ExecuteOnce(before.seen, c.key, c.order, c.venue);
      Session(before.replies + [o.reply], o.seen)
  }

  /** The venue is consulted at call i iff the key is not in the table by then. */
  predicate Consulted(seen: Seen, calls: seq<Call>, i: nat)
    requires i < |calls|
  {
    CheckDupe(Serve(seen, calls[..i]).seen, calls[i].key, calls[i].order).None?
  }

  lemma {:induction false} ServePrefix(seen: Seen, calls: seq<Call>, i: nat)
    requires i <= |calls|
    ensures |Serve(seen, calls).replies| == |calls|
    ensures Serve(seen, calls[..i]).replies == Serve(seen, calls).replies[..i]
    decreases |calls|
  {
    if i == |calls| {
      assert calls[..i] == calls;
      if calls != [] {
        ServePrefix(seen, calls[..|calls| - 1], |calls| - 1);
      }
      assert Serve(seen, calls).replies[..i] == Serve(seen, calls).replies;
    } else {
      var init := calls[..|calls| - 1];
      ServePrefix(seen, init, i);
      assert init[..i] == calls[..i];
    }
  }

  lemma ServeStep(seen: Seen, calls: seq<Call>, i: nat)
    requires i < |calls|
    ensures |Serve(seen, calls).replies| == |calls|
    ensures var before := Serve(seen, calls[..i]).seen;
            var o := ExecuteOnce(before, calls[i].key, calls[i].order, calls[i].venue);
            Serve(seen, calls[..i + 1]).seen == o.seen && Serve(seen, calls).replies[i] == o.reply
  {
    ServePrefix(seen, calls, i + 1);
    var upto := calls[..i + 1];
    assert upto[..|upto| - 1] == calls[..i];
    ServePrefix(seen, upto, i);
    assert Serve(seen, calls).replies[..i + 1][i] == Serve(seen, calls).replies[i];
  }

  /** A key is in the table after a run iff it was there before or some consulted call was remembered. */
  lemma {:induction false} TableHoldsRememberedKeys(seen: Seen, calls: seq<Call>, key: Key)
    requires forall k | k in seen :: seen[k].IsRemembered()
    ensures |Serve(seen, calls).replies| == |calls|
    ensures forall k | k in Serve(seen, calls).seen :: Serve(seen, calls).seen[k].IsRemembered()
    ensures key in Serve(seen, calls).seen
            <==> key in seen || exists i | 0 <= i < |calls| ::
                   calls[i].key == key && Serve(seen, calls).replies[i].IsRemembered()
    decreases |calls|
  {
    if calls != [] {
      var init, c := calls[..|calls| - 1], calls[|calls| - 1];
      TableHoldsRememberedKeys(seen, init, key);
      var whole, part := Serve(seen, calls), Serve(seen, init);
      assert forall i | 0 <= i < |init| :: calls[i] == init[i] && whole.replies[i] == part.replies[i];
      assert whole.replies[|init|] == ExecuteOnce(part.seen, c.key, c.order, c.venue).reply;
    }
  }

  /**
   The venue is asked again under a key exactly when the key was not seeded and no earlier call
   under it was remembered, that is, none ended FILLED or SIMULATED.
   */
  lemma ConsultedIffNotRemembered(seen: Seen, calls: seq<Call>, j: nat)
    requires j < |calls|
    requires forall k | k in seen :: seen[k].IsRemembered()
    ensures |Serve(seen, calls).replies| == |calls|
    ensures Consulted(seen, calls, j)
            <==> calls[j].key !in seen && forall i | 0 <= i < j && calls[i].key == calls[j].key ::
                   !Serve(seen, calls).replies[i].IsRemembered()
  {
    var init := calls[..j];
    TableHoldsRememberedKeys(seen, init, calls[j].key);
    ServePrefix(seen, calls, j);
    var whole, part := Serve(seen, calls).replies, Serve(seen, init).replies;
    assert forall i | 0 <= i < j :: part[i] == whole[i] && calls[i] == init[i];
  }

  /** At most one fill per key; every later call answers DUPLICATE with that same fill. */
  lemma AtMostOneFillPerKey(seen: Seen, calls: seq<Call>, i: nat, j: nat)
    requires i < j < |calls| && calls[i].key == calls[j].key
    requires forall k | k in seen :: seen[k].IsRemembered()
    ensures |Serve(seen, calls).replies| == |calls|
    ensures var replies := Serve(seen, calls).replies;
            replies[i].IsFill() ==>
              && !replies[j].IsFill()
              && replies[j] == Answer(Report(DUPLICATE, calls[j].order,
                                             replies[i].report.fill, replies[i].report.txHash))
  {
    ServeStep(seen, calls, i);
    ServeStep(seen, calls, j);
    if Serve(seen, calls).replies[i].IsFill() {
      var key := calls[i].key;
      assert calls[i].venue.Answer? && Serve(seen, calls).replies[i].report == Serve(seen, calls[..i + 1]).seen[key];
      TableEntryStays(seen, calls, i + 1, j, key);
    }
  }

  lemma {:induction false} TableEntryStays(seen: Seen, calls: seq<Call>, i: nat, j: nat, key: Key)
    requires i <= j <= |calls|
    requires key in Serve(seen, calls[..i]).seen && Serve(seen, calls[..i]).seen[key].IsRemembered()
    ensures key in Serve(seen, calls[..j]).seen
    ensures Serve(seen, calls[..j]).seen[key] == Serve(seen, calls[..i]).seen[key]
    decreases j - i
  {
    if i < j {
      TableEntryStays(seen, calls, i, j - 1, key);
      ServeStep(seen, calls, j - 1);
    }
  }

  /** A key marked by recovery answers DUPLICATE without consulting the venue, whatever happens in between. */
  lemma MarkedKeyNeverConsulted(seen: Seen, calls: seq<Call>, key: Key, j: nat)
    requires j < |calls| && calls[j].key == key
    ensures |Serve(MarkSeen(seen, key), calls).replies| == |calls|
    ensures Serve(MarkSeen(seen, key), calls).replies[j] == Answer(Report(DUPLICATE, calls[j].order, None, None))
  {
    var marked := MarkSeen(seen, key);
    assert calls[..0] == [];
    TableEntryStays(marked, calls, 0, j, key);
    ServeStep(marked, calls, j);
  }

  /**
   Exactly-once covers confirmed fills only: an order that was broadcast but whose confirmation
   failed reports FAILED, is not remembered, and goes out again under the same key.
   */
  lemma UnconfirmedBroadcastIsResent(key: Key, order: Order, fill: Fill)
    requires fill.order == order
    ensures var first := Answer(Report(FAILED, order, None, Some("0xa")));
            var second := Answer(Report(FILLED, order, Some(fill), Some("0xb")));
            var calls := [Call(key, order, first), Call(key, order, second)];
            && first.Proper() && second.Proper()
            && Consulted(map[], calls, 0) && Consulted(map[], calls, 1)
            && Serve(map[], calls).replies == [first, second]
  {
    var first := Answer(Report(FAILED, order, None, Some("0xa")));
    var second := Answer(Report(FILLED, order, Some(fill), Some("0xb")));
    var calls := [Call(key, order, first), Call(key, order, second)];
    assert calls[..1] == [Call(key, order, first)];
    assert calls[..1][..0] == [] && calls[..0] == [];
    assert calls[..|calls| - 1] == calls[..1];
    assert Serve(map[], calls[..1]) == Session([first], map[]);
  }
}
