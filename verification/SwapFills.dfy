/**
 What the wallet executor answers and books: which rung of the ladder decides, how, and at what price and costs a
 confirmed swap enters the books.
 */
module SwapFills {
  import opened Market
  import opened Ledgers
  import opened Executors
  import opened SwapLadder

  // ---- which rung decides ----

  /** The rung is quoted within the cap, and the venue swaps there. */
  predicate Swaps(desk: Desk, v: Venue, slippage: real) {
    && v.quote(slippage).Quoted? && v.quote(slippage).impact <= desk.maxSlippage
    && !desk.dryRun && !RugBlocks(v)
  }

  /** The climb goes on past this rung: no quote, or a swap that reverted or returned no hash. */
  predicate Passed(desk: Desk, v: Venue, slippage: real) {
    || v.quote(slippage).QuoteError?
    || (Swaps(desk, v, slippage)
        && (v.swap(slippage).Reverted? || (v.swap(slippage).Swapped? && v.swap(slippage).txHash.None?)))
  }

  /** The answer is a bare report of that status. */
  predicate Bare(reply: Reply, order: Order, status: Status) {
    reply == Answer(Report(status, order, None, None))
  }

  /** What a rung that is not passed makes of the order. */
  ghost predicate Decided(desk: Desk, v: Venue, order: Order, bar: Bar, slippage: real, reply: Reply) {
    match v.quote(slippage)
    case QuoteError => false
    case QuoteRaises => reply.Raises?
    case Quoted(impact) =>
      if impact > desk.maxSlippage then Bare(reply, order, REJECTED)
      else if desk.dryRun then Bare(reply, order, SIMULATED)
      else if v.rugCheckEnabled && v.risk.Risk? && (v.risk.isRug || v.risk.score >= v.rugThreshold) then reply.Raises?
      else
        match v.swap(slippage)
        case SwapRaises => reply.Raises?
        case SwapError => Bare(reply, order, FAILED)
        case Reverted => false
        case Swapped(hash, amounts) => hash.Some? && Booked(desk, v, order, bar, hash.value, amounts, reply)
  }

  /** A broadcast swap: filled exactly if its receipt, where receipts are read, confirms it. */
  ghost predicate Booked(desk: Desk, v: Venue, order: Order, bar: Bar, hash: string, amounts: Amounts, reply: Reply) {
    && reply.Answer? && reply.report.order == order && reply.report.txHash == Some(hash)
    && if v.confirms && (v.receipt(hash).ConfirmRaises? || v.receipt(hash).status != 1) then
         reply.report.status.FAILED? && reply.report.fill.None?
       else
         && reply.IsFill()
         && var f := reply.report.fill.value;
            f.order == order && PricedBy(f.price, order.side, amounts, bar.close)
            && CostedBy(f.costs, desk.cost(order, bar), v, hash)
  }

  /** The price moved: dollars over tokens, whichever way they went; the close if an amount is missing. */
  ghost predicate PricedBy(price: real, side: Side, amounts: Amounts, close: real) {
    if amounts.amountIn <= 0.0 || amounts.amountOut <= 0.0 then price == close
    else
      && price > 0.0
      && (if side.Buy? then price * amounts.amountOut == amounts.amountIn
          else price * amounts.amountIn == amounts.amountOut)
  }

  /** Fee and slippage are the model's; gas is what the receipt says it cost, where it says so. */
  ghost predicate CostedBy(costs: Costs, model: Costs, v: Venue, hash: string) {
    && costs.fee == model.fee && costs.slippage == model.slippage
    && if !v.confirms then costs.gas == model.gas
       else
         var r := v.receipt(hash);
         r.Receipt? &&
         var burnt := r.gasUsed * r.gasPriceWei * 0.000000000000000001 * Max(v.bnbPrice, 1.0);
         costs.gas == if burnt == 0.0 then model.gas else burnt
  }

  lemma PositiveQuotient(x: real, y: real)
    requires x > 0.0 && y > 0.0
    ensures x / y > 0.0 && (x / y) * y == x
  {
  }

  lemma ConfirmBooks(desk: Desk, v: Venue, order: Order, bar: Bar, hash: string, amounts: Amounts)
    ensures Booked(desk, v, order, bar, hash, amounts, Confirm(desk, v, order, bar, hash, amounts))
  {
    if amounts.amountIn > 0.0 && amounts.amountOut > 0.0 {
      PositiveQuotient(amounts.amountIn, amounts.amountOut);
      PositiveQuotient(amounts.amountOut, amounts.amountIn);
    }
  }

  /** The swaps made on the rungs climbed, in order. */
  function SwapsMade(desk: Desk, v: Venue, rungs: seq<real>): seq<Attempt> {
    if rungs == [] then []
    else
      (if Swaps(desk, v, rungs[0]) then [Attempt(rungs[0], v.swap(rungs[0]))] else [])
      + SwapsMade(desk, v, rungs[1..])
  }

  /** All rungs before `at` were passed; the one there decided, or the ladder ran out and the order failed. */
  ghost predicate DecidedAt(desk: Desk, v: Venue, order: Order, bar: Bar, ladder: seq<real>, at: nat, c: Climbed,
                            before: seq<Attempt>) {
    && at <= |ladder|
    && (forall i | 0 <= i < at :: Passed(desk, v, ladder[i]))
    && if at == |ladder| then Bare(c.reply, order, FAILED) && c.attempts == before + SwapsMade(desk, v, ladder)
       else
         && Decided(desk, v, order, bar, ladder[at], c.reply)
         && c.attempts == before + SwapsMade(desk, v, ladder[..at + 1])
  }

  /** A passed rung puts its swap, if any, in front. */
  lemma DecidedLater(desk: Desk, v: Venue, order: Order, bar: Bar, ladder: seq<real>, at: nat, c: Climbed,
                     before: seq<Attempt>)
    requires ladder != [] && Passed(desk, v, ladder[0])
    requires DecidedAt(desk, v, order, bar, ladder[1..], at, c, before + SwapsMade(desk, v, ladder[..1]))
    ensures DecidedAt(desk, v, order, bar, ladder, at + 1, c, before)
  {
    var rest := ladder[1..];
    assert ladder[..1][1..] == [];
    forall i | 0 <= i < at + 1
      ensures Passed(desk, v, ladder[i])
    {
      assert i > 0 ==> ladder[i] == rest[i - 1];
    }
    if at < |rest| {
      assert ladder[..at + 2][1..] == rest[..at + 1];
      SwappedFirst(desk, v, ladder[..at + 2], before);
      assert ladder[..at + 2][..1] == ladder[..1];
    } else {
      SwappedFirst(desk, v, ladder, before);
    }
  }

  lemma SwappedOne(desk: Desk, v: Venue, rungs: seq<real>)
    requires rungs != []
    ensures SwapsMade(desk, v, rungs[..1])
         == if Swaps(desk, v, rungs[0]) then [Attempt(rungs[0], v.swap(rungs[0]))] else []
  {
    assert rungs[..1][1..] == [];
  }

  lemma SwappedFirst(desk: Desk, v: Venue, rungs: seq<real>, before: seq<Attempt>)
    requires rungs != []
    ensures before + SwapsMade(desk, v, rungs[..1]) + SwapsMade(desk, v, rungs[1..])
         == before + SwapsMade(desk, v, rungs)
  {
    assert rungs[..1][1..] == [];
  }

  lemma {:induction false} ClimbIsDecided(desk: Desk, v: Venue, order: Order, bar: Bar, ladder: seq<real>,
                                          rugChecked: bool, before: seq<Attempt>) returns (at: nat)
    requires rugChecked ==> !RugBlocks(v)
    ensures DecidedAt(desk, v, order, bar, ladder, at, Climb(desk, v, order, bar, ladder, rugChecked, before), before)
    decreases |ladder|
  {
    at := 0;
    if ladder != [] {
      var slippage, rest := ladder[0], ladder[1..];
      SwappedOne(desk, v, ladder);
      if Passed(desk, v, slippage) {
        var tried := before + SwapsMade(desk, v, ladder[..1]);
        assert v.quote(slippage).QuoteError? ==> tried == before;
        at := ClimbIsDecided(desk, v, order, bar, rest, rugChecked || Swaps(desk, v, slippage), tried);
        DecidedLater(desk, v, order, bar, ladder, at, Climb(desk, v, order, bar, ladder, rugChecked, before), before);
        at := at + 1;
      } else if v.swap(slippage).HasHash() {
        ConfirmBooks(desk, v, order, bar, v.swap(slippage).txHash.value, v.swap(slippage).amounts);
      }
    }
  }

  /**
   What the executor answers an order it has not filled yet: a refused size is rejected before anything is quoted;
   otherwise the first rung of the ladder that is not passed decides, and the order fails when there is none.
   */
  lemma AnswerIsDecided(desk: Desk, v: Venue, order: Order, bar: Bar) returns (at: nat)
    ensures var sized, c := Sized(desk, v, order), Answered(desk, v, order, bar);
            if sized.rejected then Bare(c.reply, order, REJECTED) && c.attempts == []
            else DecidedAt(desk, v, sized.order, bar, Ladder(desk.maxSlippage * 100.0), at, c, [])
  {
    at := 0;
    var sized := Sized(desk, v, order);
    if !sized.rejected {
      at := ClimbIsDecided(desk, v, sized.order, bar, Ladder(desk.maxSlippage * 100.0), false, []);
    }
  }

  // ---- what a fill says ----

  lemma {:induction false} LastSwapMade(desk: Desk, v: Venue, rungs: seq<real>)
    requires rungs != [] && Swaps(desk, v, rungs[|rungs| - 1])
    ensures var made, last := SwapsMade(desk, v, rungs), rungs[|rungs| - 1];
            made != [] && made[|made| - 1] == Attempt(last, v.swap(last))
  {
    if |rungs| > 1 {
      LastSwapMade(desk, v, rungs[1..]);
    }
  }

  /** An order filled by a call was filled by its last swap, at what that swap moved and its receipt says. */
  lemma FilledByItsLastSwap(seen: Seen, key: Key, desk: Desk, v: Venue, order: Order, bar: Bar)
    requires ExecuteOnce(seen, key, order, Answered(desk, v, order, bar).reply).reply.IsFill()
    ensures var attempts := Answered(desk, v, order, bar).attempts;
            && attempts != [] && attempts[|attempts| - 1].reply.HasHash()
            && var last := attempts[|attempts| - 1].reply;
               Booked(desk, v, Sized(desk, v, order).order, bar, last.txHash.value, last.amounts,
                      ExecuteOnce(seen, key, order, Answered(desk, v, order, bar).reply).reply)
  {
    var sized, ladder := Sized(desk, v, order).order, Ladder(desk.maxSlippage * 100.0);
    var c := Answered(desk, v, order, bar);
    var at := AnswerIsDecided(desk, v, order, bar);
    assert c.reply.IsFill();
    FillDecided(desk, v, sized, bar, ladder, at, c);
  }

  lemma FillDecided(desk: Desk, v: Venue, order: Order, bar: Bar, ladder: seq<real>, at: nat, c: Climbed)
    requires DecidedAt(desk, v, order, bar, ladder, at, c, []) && c.reply.IsFill()
    ensures c.attempts != [] && c.attempts[|c.attempts| - 1].reply.HasHash()
    ensures var last := c.attempts[|c.attempts| - 1].reply;
            Booked(desk, v, order, bar, last.txHash.value, last.amounts, c.reply)
  {
    LastSwapMade(desk, v, ladder[..at + 1]);
  }

  /** Entered in the ledger, a swap of the order's own dollars moves exactly the tokens that changed hands. */
  lemma SwapMovesItsTokens(l: Ledger, desk: Desk, v: Venue, order: Order, bar: Bar, hash: string, amounts: Amounts,
                           reply: Reply)
    requires Booked(desk, v, order, bar, hash, amounts, reply) && reply.IsFill()
    requires amounts.amountIn > 0.0 && amounts.amountOut > 0.0
    requires order.sizeUsd == if order.side.Buy? then amounts.amountIn else amounts.amountOut
    requires order.side.Sell? ==> amounts.amountIn <= l.units
    ensures var m, f := Apply(l, reply.report.fill.value), reply.report.fill.value;
            if order.side.Buy? then
              m.units == l.units + amounts.amountOut && m.cash == l.cash - amounts.amountIn - f.costs.Total()
            else
              m.units == l.units - amounts.amountIn && m.cash == l.cash + amounts.amountOut - f.costs.Total()
  {
    var price := reply.report.fill.value.price;
    if order.side.Buy? {
      UnitsAreUnique(order.sizeUsd, amounts.amountOut, price);
    } else {
      UnitsAreUnique(order.sizeUsd, amounts.amountIn, price);
    }
  }

  lemma UnitsAreUnique(usd: real, units: real, price: real)
    requires price > 0.0 && price * units == usd
    ensures UnitsAt(usd, price) == units
  {
    UnitsTimesPrice(usd, price);
    assert (UnitsAt(usd, price) - units) * price == 0.0;
  }
}
