/**
 What the simulator refuses: which orders it cuts and to what, and what its four counters add up to over every
 run in both fill modes.
 */
module Refusals {
  import opened Market
  import opened Engine
  import opened EngineLaws

  /** A sale of more than the position is worth, beyond the tolerance. */
  predicate Oversized(account: Account, q: Quote) {
    q.order.side.Sell? && q.order.sizeUsd > account.units * q.price + TOLERANCE
  }

  /** A purchase for more than the cash left after gas, beyond the tolerance. */
  predicate Underfunded(account: Account, q: Quote) {
    q.order.side.Buy? && q.order.sizeUsd > account.cash - q.costs.gas + TOLERANCE
  }

  /** USD asked for beyond what is held. */
  function OversizedUsd(account: Account, q: Quote): real {
    if Oversized(account, q) then q.order.sizeUsd - account.units * q.price else 0.0
  }

  /** USD asked for beyond what can be paid for. */
  function UnderfundedUsd(account: Account, q: Quote): real {
    if Underfunded(account, q) then q.order.sizeUsd - Max(account.cash - q.costs.gas, 0.0) else 0.0
  }

  /** An order that sells out, spends everything or trades what it asks for; a size within the tolerance is dropped. */
  function Tradable(account: Account, q: Quote): real {
    var size := if Oversized(account, q) then account.units * q.price
                else if Underfunded(account, q) then account.cash - q.costs.gas
                else q.order.sizeUsd;
    if size > TOLERANCE then size else 0.0
  }

  ghost predicate Counts(before: Record, after: Record, sales: nat, saleUsd: real, buys: nat, buyUsd: real) {
    && after.oversizedSells == before.oversizedSells + sales
    && after.oversizedSellUsd == before.oversizedSellUsd + saleUsd
    && after.underfundedBuys == before.underfundedBuys + buys
    && after.underfundedBuyUsd == before.underfundedBuyUsd + buyUsd
  }

  function One(b: bool): nat { if b then 1 else 0 }

  /**
   A sale is counted once, with its excess, exactly when it asks for more than is held; a buy exactly when it asks
   for more than can be paid; neither moves the other's figures. Both trade all there is, any other order its size.
   */
  lemma OrderCountsItsRefusal(account: Account, record: Record, q: Quote)
    ensures var a := ApplyOrder(account, record, q.order, q.price, q.costs);
            && Counts(record, a.record, One(Oversized(account, q)), OversizedUsd(account, q),
                      One(Underfunded(account, q)), UnderfundedUsd(account, q))
            && a.executed == Tradable(account, q)
  {
  }

  /** The bars so far whose attempt was refused. */
  function Count(bars: seq<Bar>, setup: Setup, refused: (Account, Quote) -> bool): nat {
    if bars == [] then 0
    else
      var init := bars[..|bars| - 1];
      var q := Attempt(Run(init, setup), bars, setup);
      Count(init, setup, refused) + One(q.Some? && refused(Run(init, setup).account, q.value))
  }

  /** What the bars' attempts add up to. */
  function Total(bars: seq<Bar>, setup: Setup, usd: (Account, Quote) -> real): real {
    if bars == [] then 0.0
    else
      var init := bars[..|bars| - 1];
      var q := Attempt(Run(init, setup), bars, setup);
      Total(init, setup, usd) + if q.Some? then usd(Run(init, setup).account, q.value) else 0.0
  }

  ghost predicate CountersAddUp(bars: seq<Bar>, setup: Setup) {
    var r := Run(bars, setup).record;
    && r.oversizedSells == Count(bars, setup, Oversized)
    && r.oversizedSellUsd == Total(bars, setup, OversizedUsd)
    && r.underfundedBuys == Count(bars, setup, Underfunded)
    && r.underfundedBuyUsd == Total(bars, setup, UnderfundedUsd)
    && Run(bars, setup).volume == Total(bars, setup, Tradable)
  }

  /** Over every run each counter is the number, and each total the sum, over the bars' attempts; so is the volume. */
  lemma {:induction false} RefusalsAddUp(bars: seq<Bar>, setup: Setup)
    ensures CountersAddUp(bars, setup)
  {
    if bars != [] {
      RefusalsAddUp(bars[..|bars| - 1], setup);
      BarCountsItsRefusal(bars, setup);
    }
  }

  lemma BarCountsItsRefusal(bars: seq<Bar>, setup: Setup)
    requires bars != [] && CountersAddUp(bars[..|bars| - 1], setup)
    ensures CountersAddUp(bars, setup)
  {
    var init := bars[..|bars| - 1];
    var s := Run(init, setup);
    PendingOnlyWhenDelayed(init, setup);
    BarStepExecutesOneAttempt(s, bars, setup);
    var q := Attempt(s, bars, setup);
    if q.Some? {
      OrderCountsItsRefusal(s.account, s.record, q.value);
    }
  }
}
