/**
 Live execution through the wallet CLI: clamp the buy to the balance, then climb a ladder of
 slippage settings, quoting before every swap, until one swap is confirmed or refused.
 The environment is arbitrary: `Venue` says what each quote, swap, risk check and receipt returns.
 */
module SwapLadder {
  import opened Market
  import opened Executors

  const FEE_HEADROOM: real := 0.06
  const MIN_TRADE_USD: real := 1.0

  datatype BalanceReply = Unreadable | Available(usd: real)

  datatype QuoteReply = Quoted(impact: real) | QuoteError | QuoteRaises

  datatype Amounts = Amounts(amountIn: real, amountOut: real)

  /** A swap call: a result with or without a hash, an on-chain revert, another CLI error, or an exception. */
  datatype SwapReply = Swapped(txHash: Option<string>, amounts: Amounts) | Reverted | SwapError | SwapRaises {
    predicate HasHash() { Swapped? && txHash.Some? }
  }

  datatype RiskReply = Offline | Risk(isRug: bool, score: real)

  datatype ReceiptReply = Receipt(status: int, gasUsed: real, gasPriceWei: real) | ConfirmRaises

  datatype Venue = Venue(balance: BalanceReply, quote: real -> QuoteReply, swap: real -> SwapReply,
                         rugCheckEnabled: bool, rugThreshold: real, risk: RiskReply,
                         confirms: bool, receipt: string -> ReceiptReply, bnbPrice: real)

  datatype Desk = Desk(maxSlippage: real, dryRun: bool, cost: CostModel)

  datatype Attempt = Attempt(slippage: real, reply: SwapReply)

  datatype Climbed = Climbed(reply: Reply, attempts: seq<Attempt>)

  /** Rounding to cents, ties to even. */
  function RoundCents(x: real): real {
    var n := (x * 100.0).Floor;
    var rest := x * 100.0 - n as real;
    (if rest < 0.5 || (rest == 0.5 && n % 2 == 0) then n else n + 1) as real / 100.0
  }

  datatype Clamp = Clamp(order: Order, rejected: bool)

  function ClampBuyToBalance(order: Order, balance: BalanceReply): Clamp {
    if balance.Unreadable? then Clamp(order, false)
    else
      var spendable := balance.usd / (1.0 + FEE_HEADROOM);
      if order.sizeUsd <= spendable then Clamp(order, false)
      else if spendable < MIN_TRADE_USD then Clamp(order, true)
      else Clamp(order.(sizeUsd := RoundCents(spendable)), false)
  }

  /** The distinct slippage settings in ascending order, in percent. */
  function Ladder(base: real): seq<real> {
    if base < 5.0 then [base, 5.0, 8.0]
    else if base == 5.0 || base == 8.0 then [5.0, 8.0]
    else if base < 8.0 then [5.0, base, 8.0]
    else [5.0, 8.0, base]
  }

  predicate RugBlocks(v: Venue) {
    v.rugCheckEnabled && v.risk.Risk? && (v.risk.isRug || v.risk.score >= v.rugThreshold)
  }

  function FillPriceFromSwap(amounts: Amounts, side: Side, fallback: real): real {
    if amounts.amountIn <= 0.0 || amounts.amountOut <= 0.0 then fallback
    else
      var price := if side.Buy? then amounts.amountIn / amounts.amountOut else amounts.amountOut / amounts.amountIn;
      if price <= 0.0 then fallback else price
  }

  function GasUsd(r: ReceiptReply, bnbPrice: real): real
    requires r.Receipt?
  {
    r.gasUsed * r.gasPriceWei * 0.000000000000000001 * Max(bnbPrice, 1.0)
  }

  /** After a swap returned a hash: confirm it and reconcile the fill. */
  function Confirm(desk: Desk, v: Venue, order: Order, bar: Bar, txHash: string, amounts: Amounts): Reply {
    var r := v.receipt(txHash);
    if v.confirms && (r.ConfirmRaises? || r.status != 1) then
      Answer(Report(FAILED, order, None, Some(txHash)))
    else
      var model := desk.cost(order, bar);
      var gas := if v.confirms then GasUsd(r, v.bnbPrice) else 0.0;
      var costs := model.(gas := if gas != 0.0 then gas else model.gas);
      var price := FillPriceFromSwap(amounts, order.side, bar.close);
      Answer(Report(FILLED, order, Some(Fill(order, price, costs)), Some(txHash)))
  }

  function Climb(desk: Desk, v: Venue, order: Order, bar: Bar, ladder: seq<real>,
                 rugChecked: bool, attempts: seq<Attempt>): Climbed
  {
    if ladder == [] then Climbed(Answer(Report(FAILED, order, None, None)), attempts)
    else
      var slippage, rest := ladder[0], ladder[1..];
      match v.quote(slippage)
      case QuoteError => Climb(desk, v, order, bar, rest, rugChecked, attempts)
      case QuoteRaises => Climbed(Raises, attempts)
      case Quoted(impact) =>
        if impact > desk.maxSlippage then Climbed(Answer(Report(REJECTED, order, None, None)), attempts)
        else if desk.dryRun then Climbed(Answer(Report(SIMULATED, order, None, None)), attempts)
        else if !rugChecked && RugBlocks(v) then Climbed(Raises, attempts)
        else
          var tried := attempts + [Attempt(slippage, v.swap(slippage))];
          match v.swap(slippage)
          case SwapRaises => Climbed(Raises, tried)
          case SwapError => Climbed(Answer(Report(FAILED, order, None, None)), tried)
          case Reverted => Climb(desk, v, order, bar, rest, true, tried)
          case Swapped(hash, amounts) =>
            if hash.None? then Climb(desk, v, order, bar, rest, true, tried)
            else Climbed(Confirm(desk, v, order, bar, hash.value, amounts), tried)
  }

  /** Only a live buy is sized to the balance. */
  function Sized(desk: Desk, v: Venue, order: Order): Clamp {
    if order.side.Buy? && !desk.dryRun then ClampBuyToBalance(order, v.balance) else Clamp(order, false)
  }

  /** What the venue answers for a key that has not executed yet. */
  function Answered(desk: Desk, v: Venue, order: Order, bar: Bar): Climbed {
    var clamp := Sized(desk, v, order);
    if clamp.rejected then Climbed(Answer(Report(REJECTED, clamp.order, None, None)), [])
    else Climb(desk, v, clamp.order, bar, Ladder(desk.maxSlippage * 100.0), false, [])
  }

  class TwakSwapExecutor {
    var seen: Seen
    const desk: Desk

    constructor (desk: Desk)
      ensures seen == map[] && this.desk == desk
    {
      seen := map[];
      this.desk := desk;
    }

    /** `attempts` lists the swap calls made, in order. */
    method Execute(order: Order, bar: Bar, key: Key, v: Venue) returns (reply: Reply, attempts: seq<Attempt>)
      modifies this
      ensures Outcome(reply, seen) == ExecuteOnce(old(seen), key, order, Answered(desk, v, order, bar).reply)
      ensures attempts == if CheckDupe(old(seen), key, order).Some? then [] else Answered(desk, v, order, bar).attempts
    {
      attempts := [];
      var dupe := CheckDupe(seen, key, order);
      if dupe.Some? {
        return Answer(dupe.value), attempts;
      }
      var ladder := Ladder(desk.maxSlippage * 100.0);
      var sized := order;
      if order.side.Buy? && !desk.dryRun {
        var clamp := ClampBuyToBalance(order, v.balance);
        sized := clamp.order;
        if clamp.rejected {
          return Answer(Report(REJECTED, sized, None, None)), attempts;
        }
      }
      var rugChecked := false;
      ghost var climb := Climb(desk, v, sized, bar, ladder, false, []);
      assert ladder[0..] == ladder;
      for i := 0 to |ladder|
        invariant seen == old(seen)
        invariant Climb(desk, v, sized, bar, ladder[i..], rugChecked, attempts) == climb
      {
        var slippage := ladder[i];
        assert ladder[i..][0] == slippage && ladder[i..][1..] == ladder[i + 1..];
        var quote := v.quote(slippage);
        if quote.QuoteError? {
          continue;
        }
        if quote.QuoteRaises? {
          return Raises, attempts;
        }
        if quote.impact > desk.maxSlippage {
          return Answer(Report(REJECTED, sized, None, None)), attempts;
        }
        if desk.dryRun {
          var simulated := Report(SIMULATED, sized, None, None);
          seen := Remember(seen, key, simulated);
          return Answer(simulated), attempts;
        }
        if !rugChecked {
          if RugBlocks(v) {
            return Raises, attempts;
          }
          rugChecked := true;
        }
        var swap := v.swap(slippage);
        attempts := attempts + [Attempt(slippage, swap)];
        if swap.SwapRaises? {
          return Raises, attempts;
        }
        if swap.SwapError? {
          return Answer(Report(FAILED, sized, None, None)), attempts;
        }
        if swap.Reverted? || swap.txHash.None? {
          continue;
        }
        reply := Confirm(desk, v, sized, bar, swap.txHash.value, swap.amounts);
        seen := Remember(seen, key, reply.report);
        return reply, attempts;
      }
      return Answer(Report(FAILED, sized, None, None)), attempts;
    }
  }

  // ---- the protocol, against every environment ----

  ghost predicate Ascending(xs: seq<real>) {
    forall i, j | 0 <= i < j < |xs| :: xs[i] < xs[j]
  }

  /**
   The ladder is the sorted set of the configured cap, 5% and 8%. It starts at the cap only up to 5%
   and stays within 8% only when the cap does.
   */
  lemma LadderIsSortedSet(base: real)
    ensures var l := Ladder(base);
            && Ascending(l) && |l| <= 3
            && (forall x :: x in l <==> x == base || x == 5.0 || x == 8.0)
            && (l[0] == base <==> base <= 5.0)
            && ((forall x | x in l :: x <= 8.0) <==> base <= 8.0)
  {
    assert 8.0 in Ladder(base) && base in Ladder(base) && 5.0 in Ladder(base) by {
      if base < 5.0 { assert Ladder(base)[0] == base && Ladder(base)[1] == 5.0 && Ladder(base)[2] == 8.0; }
      else if base == 5.0 || base == 8.0 { assert Ladder(base)[0] == 5.0 && Ladder(base)[1] == 8.0; }
      else if base < 8.0 { assert Ladder(base)[1] == base && Ladder(base)[0] == 5.0 && Ladder(base)[2] == 8.0; }
      else { assert Ladder(base)[2] == base && Ladder(base)[0] == 5.0 && Ladder(base)[1] == 8.0; }
    }
  }

  ghost predicate ConfirmedBy(v: Venue, a: Attempt) {
    && a.reply.HasHash()
    && (v.confirms ==>
          var r := v.receipt(a.reply.txHash.value); r.Receipt? && r.status == 1)
  }

  /** Cleared attempts at rising slippage, none of which returned a hash. */
  ghost predicate Unbroadcast(desk: Desk, v: Venue, attempts: seq<Attempt>) {
    && (forall i, j | 0 <= i < j < |attempts| :: attempts[i].slippage < attempts[j].slippage)
    && (forall i | 0 <= i < |attempts| :: !attempts[i].reply.HasHash() && Cleared(desk, v, attempts[i]))
  }

  /** What holds of a climb that has made `attempts` and has `ladder` left. */
  ghost predicate Climbing(desk: Desk, v: Venue, ladder: seq<real>, rugChecked: bool, attempts: seq<Attempt>) {
    && Ascending(ladder) && Unbroadcast(desk, v, attempts)
    && (attempts != [] && ladder != [] ==> attempts[|attempts| - 1].slippage < ladder[0])
    && (rugChecked ==> !RugBlocks(v))
    && (attempts != [] ==> rugChecked)
  }

  /** The gates every swap attempt has passed. */
  ghost predicate Cleared(desk: Desk, v: Venue, a: Attempt) {
    && v.swap(a.slippage) == a.reply
    && v.quote(a.slippage).Quoted? && v.quote(a.slippage).impact <= desk.maxSlippage
    && !desk.dryRun && !RugBlocks(v)
  }

  ghost predicate ClimbLaws(desk: Desk, v: Venue, order: Order, c: Climbed) {
    && c.reply.Proper()
    && (c.reply.Answer? ==> c.reply.report.order == order)
    && (forall i, j | 0 <= i < j < |c.attempts| :: c.attempts[i].slippage < c.attempts[j].slippage)
    && (forall i | 0 <= i < |c.attempts| :: Cleared(desk, v, c.attempts[i]))
    && (forall i | 0 <= i < |c.attempts| - 1 :: !c.attempts[i].reply.HasHash())
    && (c.reply.IsFill() <==> c.attempts != [] && ConfirmedBy(v, c.attempts[|c.attempts| - 1]))
    && (c.reply.Answer? && c.reply.report.status.SIMULATED? ==> desk.dryRun && c.attempts == [])
    && (c.reply.Answer? && c.reply.report.txHash.Some? <==>
          c.attempts != [] && c.attempts[|c.attempts| - 1].reply.HasHash())
    && (c.reply.Answer? && c.reply.report.txHash.Some? ==>
          c.reply.report.txHash == c.attempts[|c.attempts| - 1].reply.txHash)
  }

  /** A swap that returned no hash leaves the climb in order, one rung up. */
  lemma NextRung(desk: Desk, v: Venue, ladder: seq<real>, rugChecked: bool, attempts: seq<Attempt>)
    requires ladder != [] && Climbing(desk, v, ladder, rugChecked, attempts)
    ensures Climbing(desk, v, ladder[1..], rugChecked, attempts)
    ensures var a := Attempt(ladder[0], v.swap(ladder[0]));
            Cleared(desk, v, a) && !a.reply.HasHash() ==> Climbing(desk, v, ladder[1..], true, attempts + [a])
  {
    if attempts != [] {
      assert forall i | 0 <= i < |attempts| - 1 :: attempts[i].slippage < attempts[|attempts| - 1].slippage;
    }
  }

  lemma ConfirmReports(desk: Desk, v: Venue, order: Order, bar: Bar, a: Attempt)
    requires a.reply.HasHash()
    ensures var r := Confirm(desk, v, order, bar, a.reply.txHash.value, a.reply.amounts);
            && r.Proper() && r.Answer? && r.report.order == order
            && r.report.txHash == a.reply.txHash
            && !r.report.status.SIMULATED?
            && (r.IsFill() <==> ConfirmedBy(v, a))
  {
  }

  lemma LastRung(desk: Desk, v: Venue, order: Order, bar: Bar, ladder: seq<real>, rugChecked: bool,
                 attempts: seq<Attempt>)
    requires ladder != [] && Climbing(desk, v, ladder, rugChecked, attempts)
    requires var a := Attempt(ladder[0], v.swap(ladder[0])); Cleared(desk, v, a) && a.reply.HasHash()
    ensures var a := Attempt(ladder[0], v.swap(ladder[0]));
            ClimbLaws(desk, v, order, Climbed(Confirm(desk, v, order, bar, a.reply.txHash.value, a.reply.amounts),
                                              attempts + [a]))
  {
    var a := Attempt(ladder[0], v.swap(ladder[0]));
    ConfirmReports(desk, v, order, bar, a);
    if attempts != [] {
      assert forall i | 0 <= i < |attempts| - 1 :: attempts[i].slippage < attempts[|attempts| - 1].slippage;
    }
  }

  /** A climb that ends without a hash, in an exception or an empty-handed report. */
  lemma EndsUnfilled(desk: Desk, v: Venue, order: Order, c: Climbed)
    requires Unbroadcast(desk, v, c.attempts)
    requires c.reply.Raises? || c.reply.report == Report(c.reply.report.status, order, None, None)
    requires c.reply.Answer? ==>
               match c.reply.report.status
               case SIMULATED => desk.dryRun && c.attempts == []
               case FAILED => true
               case REJECTED => true
               case _ => false
    ensures ClimbLaws(desk, v, order, c)
  {
  }

  lemma {:induction false} ClimbKeepsProtocol(desk: Desk, v: Venue, order: Order, bar: Bar, ladder: seq<real>,
                                              rugChecked: bool, attempts: seq<Attempt>)
    requires Climbing(desk, v, ladder, rugChecked, attempts)
    ensures var c := Climb(desk, v, order, bar, ladder, rugChecked, attempts);
            ClimbLaws(desk, v, order, c) && |c.attempts| <= |attempts| + |ladder|
    decreases |ladder|
  {
    var c := Climb(desk, v, order, bar, ladder, rugChecked, attempts);
    if ladder == [] {
      EndsUnfilled(desk, v, order, c);
      return;
    }
    var a, rest := Attempt(ladder[0], v.swap(ladder[0])), ladder[1..];
    NextRung(desk, v, ladder, rugChecked, attempts);
    if v.quote(ladder[0]).QuoteError? {
      ClimbKeepsProtocol(desk, v, order, bar, rest, rugChecked, attempts);
    } else if !Cleared(desk, v, a) {
      EndsUnfilled(desk, v, order, c);
    } else if a.reply.HasHash() {
      LastRung(desk, v, order, bar, ladder, rugChecked, attempts);
    } else if a.reply.Reverted? || a.reply.Swapped? {
      ClimbKeepsProtocol(desk, v, order, bar, rest, true, attempts + [a]);
    } else {
      EndsUnfilled(desk, v, order, c);
    }
  }

  /**
   Against every environment: at most three swaps at strictly increasing slippage, all behind a
   passing quote and rug check; only the last can return a hash; and the report is FILLED exactly
   when the last swap returned a hash that was confirmed.
   */
  lemma SwapProtocol(desk: Desk, v: Venue, order: Order, bar: Bar)
    ensures var c := Answered(desk, v, order, bar);
            && |c.attempts| <= 3
            && ClimbLaws(desk, v, Sized(desk, v, order).order, c)
  {
    var clamp := Sized(desk, v, order);
    LadderIsSortedSet(desk.maxSlippage * 100.0);
    if !clamp.rejected {
      ClimbKeepsProtocol(desk, v, clamp.order, bar, Ladder(desk.maxSlippage * 100.0), false, []);
    }
  }

  /** The cents: the nearest whole number of them, and of two equally near the even one. */
  lemma RoundCentsIsNearest(x: real) returns (cents: int)
    ensures RoundCents(x) == cents as real / 100.0
    ensures -0.005 <= RoundCents(x) - x <= 0.005
    ensures RoundCents(x) - x == 0.005 || RoundCents(x) - x == -0.005 ==> cents % 2 == 0
  {
    var n := (x * 100.0).Floor;
    var rest := x * 100.0 - n as real;
    cents := if rest < 0.5 || (rest == 0.5 && n % 2 == 0) then n else n + 1;
  }

  /**
   A buy against a readable balance is rejected, kept, or cut to the spendable cents. With the 6% headroom
   added it may need up to 0.0053 USD more than the balance, and does exactly when the cut rounded up.
   */
  lemma ClampedBuyFitsBalance(order: Order, usd: real)
    ensures var c := ClampBuyToBalance(order, Available(usd));
            var size := c.order.sizeUsd;
            var spendable := usd / (1.0 + FEE_HEADROOM);
            && (c.rejected <==> order.sizeUsd > spendable && spendable < MIN_TRADE_USD)
            && c.order == order.(sizeUsd := size)
            && (c.rejected || order.sizeUsd <= spendable ==> size == order.sizeUsd)
            && (!c.rejected && order.sizeUsd > spendable ==> -0.005 <= size - spendable <= 0.005)
            && (!c.rejected && order.sizeUsd > 0.0 ==>
                  && size <= order.sizeUsd + 0.005
                  && size <= usd
                  && size * (1.0 + FEE_HEADROOM) <= usd + 0.0053
                  && (size * (1.0 + FEE_HEADROOM) > usd
                      <==> order.sizeUsd > spendable && RoundCents(spendable) > spendable))
  {
    var spendable := usd / (1.0 + FEE_HEADROOM);
    assert spendable * (1.0 + FEE_HEADROOM) == usd;
    var _ := RoundCentsIsNearest(spendable);
  }

  /** Only a live buy against a readable balance is ever cut or turned away. */
  lemma OnlyLiveBuysAreSized(desk: Desk, v: Venue, order: Order)
    ensures order.side.Sell? || desk.dryRun || v.balance.Unreadable? ==> Sized(desk, v, order) == Clamp(order, false)
    ensures order.side.Buy? && !desk.dryRun ==> Sized(desk, v, order) == ClampBuyToBalance(order, v.balance)
  {
  }

  /** The headroom is not always kept: a balance of 1.80 funds a buy of 1.70, which with headroom needs 1.8020. */
  lemma HeadroomCanBeExceeded()
    ensures var c := ClampBuyToBalance(Order(Buy, 10.0, "ETH", 0), Available(1.80));
            !c.rejected && c.order.sizeUsd == 1.70 && c.order.sizeUsd * (1.0 + FEE_HEADROOM) > 1.80
  {
    var spendable := 1.80 / (1.0 + FEE_HEADROOM);
    assert spendable * 1.06 == 1.80;
    assert 169.8 < spendable * 100.0 < 169.9;
    assert (spendable * 100.0).Floor == 169;
  }
}
