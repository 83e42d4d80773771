/** The chain cost model: proportional swap fee, flat gas, square-root price impact. */
module CostModels {
  import opened Market
  import opened Engine

  /** `sqrt` stands for the host language's square root; `IsSqrt` says what is used of it. */
  datatype BscCostModel = BscCostModel(gasUnits: real, gasPriceGwei: real, swapFeeRate: real,
                                       poolLiquidityUsd: real, bnbPriceUsd: real, sqrt: real -> real) {
    function AmmSlippage(sizeUsd: real): real {
      if poolLiquidityUsd <= 0.0 || sizeUsd <= 0.0 then 0.0
      else sizeUsd * (0.5 * sqrt(sizeUsd / poolLiquidityUsd))
    }

    function Quote(order: Order, bar: Bar): Costs {
      Costs(order.sizeUsd * swapFeeRate, gasUnits * gasPriceGwei * 0.000000001 * bnbPriceUsd,
            AmmSlippage(order.sizeUsd))
    }
  }

  /** The fee is the rate on the size, gas is the same for every order: a billion units at one gwei burn one BNB. */
  lemma FeeIsProportionalGasIsFlat(m: BscCostModel, order: Order, bar: Bar)
    ensures m.Quote(order, bar).fee == order.sizeUsd * m.swapFeeRate
    ensures m.Quote(order, bar).gas * 1_000_000_000.0 == m.gasUnits * m.gasPriceGwei * m.bnbPriceUsd
    ensures m.Quote(order, bar).slippage == m.AmmSlippage(order.sizeUsd)
  {
  }

  ghost predicate IsSqrt(sqrt: real -> real) {
    forall x: real | x >= 0.0 :: sqrt(x) >= 0.0 && sqrt(x) * sqrt(x) == x
  }

  lemma SqrtStrictlyMonotone(sqrt: real -> real, x: real, y: real)
    requires IsSqrt(sqrt) && 0.0 <= x < y
    ensures sqrt(x) < sqrt(y)
  {
    var a, b := sqrt(x), sqrt(y);
    assert a * a == x && b * b == y;
    PositiveFactor(b - a, b + a);
  }

  lemma PositiveFactor(d: real, s: real)
    requires d * s > 0.0 && s >= 0.0
    ensures d > 0.0
  {
  }

  /** Impact per dollar falls strictly with size, so scaling a larger quote down overcharges. */
  lemma ScaledSlippageOvercharges(m: BscCostModel, requested: real, executed: real)
    requires IsSqrt(m.sqrt) && m.poolLiquidityUsd > 0.0
    requires 0.0 < executed < requested
    ensures m.AmmSlippage(requested) * (executed / requested) > m.AmmSlippage(executed)
  {
    var l := m.poolLiquidityUsd;
    DivideBoth(executed, requested, l);
    var r, e := m.sqrt(requested / l), m.sqrt(executed / l);
    SqrtStrictlyMonotone(m.sqrt, executed / l, requested / l);
    Rescale(requested, 0.5 * r, executed);
    assert executed * (0.5 * r - 0.5 * e) > 0.0;
  }

  /** A trade as large as the pool loses half of itself to impact, and four times a trade loses twice the rate. */
  lemma ImpactGrowsWithTheRoot(m: BscCostModel, size: real)
    requires IsSqrt(m.sqrt) && m.poolLiquidityUsd > 0.0 && size > 0.0
    ensures size == m.poolLiquidityUsd ==> m.AmmSlippage(size) == size / 2.0
    ensures m.AmmSlippage(4.0 * size) == 8.0 * m.AmmSlippage(size)
  {
    var x := size / m.poolLiquidityUsd;
    FourTimes(size, m.poolLiquidityUsd);
    var r, q := m.sqrt(x), m.sqrt(4.0 * x);
    assert r * r == x && q * q == 4.0 * x;
    SameRoot(q, 2.0 * r);
    Factor(size, r);
    if size == m.poolLiquidityUsd {
      SameRoot(r, 1.0);
    }
  }

  lemma SameRoot(x: real, y: real)
    requires x >= 0.0 && y >= 0.0 && x * x == y * y
    ensures x == y
  {
    if x < y {
      Larger(y, x);
    } else if y < x {
      Larger(x, y);
    }
  }

  lemma Larger(x: real, y: real)
    requires x > y >= 0.0
    ensures x * x > y * y
  {
    Product(x - y, x + y);
    assert (x - y) * (x + y) == x * x - y * y;
  }

  lemma Product(x: real, y: real)
    requires x > 0.0 && y > 0.0
    ensures x * y > 0.0
  {
  }

  lemma FourTimes(size: real, l: real)
    requires l > 0.0 && size > 0.0
    ensures size / l > 0.0 && (4.0 * size) / l == 4.0 * (size / l) && (size == l ==> size / l == 1.0)
  {
    var x, y := size / l, (4.0 * size) / l;
    assert x * l == size && y * l == 4.0 * size;
    PositiveFactor(x, l);
    assert (y - 4.0 * x) * l == 0.0;
  }

  lemma Factor(size: real, r: real)
    ensures 4.0 * size * (0.5 * (2.0 * r)) == 8.0 * (size * (0.5 * r))
  {
  }

  lemma DivideBoth(x: real, y: real, l: real)
    requires 0.0 < x < y && l > 0.0
    ensures 0.0 < x / l < y / l
  {
    assert (x / l) * l == x && (y / l) * l == y;
    PositiveFactor(x / l, l);
    PositiveFactor(y / l - x / l, l);
  }

  lemma Rescale(size: real, rate: real, part: real)
    requires size > 0.0
    ensures size * rate * (part / size) == part * rate
  {
    assert (part / size) * size == part;
  }

  /**
   A fill the simulator emits is charged the model's fee for what traded, and at least the model's
   slippage; with a pool, the slippage is strictly above the model's exactly when the request was cut down.
   */
  lemma EmittedFillNeverUndercharged(account: Account, record: Record, order: Order, price: real, bar: Bar,
                                     m: BscCostModel)
    requires IsSqrt(m.sqrt)
    requires ApplyOrder(account, record, order, price, m.Quote(order, bar)).executed > 0.0
    ensures var a := ApplyOrder(account, record, order, price, m.Quote(order, bar));
            var f := a.record.fills[|record.fills|];
            var model := m.Quote(f.order, bar);
            && f.costs.fee == model.fee
            && f.costs.gas == model.gas
            && f.costs.slippage >= model.slippage
            && (f.costs.slippage > model.slippage <==> a.executed < order.sizeUsd && m.poolLiquidityUsd > 0.0)
  {
    var quoted := m.Quote(order, bar);
    EmittedFill(account, record, order, price, quoted);
    ScaledFillNeverUndercharged(order, price, ApplyOrder(account, record, order, price, quoted).executed, bar, m);
  }

  lemma EmittedFill(account: Account, record: Record, order: Order, price: real, quoted: Costs)
    requires ApplyOrder(account, record, order, price, quoted).executed > 0.0
    ensures var a := ApplyOrder(account, record, order, price, quoted);
            && a.executed <= order.sizeUsd
            && |a.record.fills| > |record.fills|
            && a.record.fills[|record.fills|] == FillFor(order, price, a.executed, quoted)
  {
  }

  lemma ScaledFillNeverUndercharged(order: Order, price: real, executed: real, bar: Bar, m: BscCostModel)
    requires IsSqrt(m.sqrt) && 0.0 < executed <= order.sizeUsd
    ensures var f := FillFor(order, price, executed, m.Quote(order, bar));
            var model := m.Quote(f.order, bar);
            && f.costs.fee == model.fee && f.costs.gas == model.gas
            && f.costs.slippage >= model.slippage
            && (f.costs.slippage > model.slippage <==> executed < order.sizeUsd && m.poolLiquidityUsd > 0.0)
  {
    if executed < order.sizeUsd {
      Rescale(order.sizeUsd, m.swapFeeRate, executed);
      if m.poolLiquidityUsd > 0.0 {
        ScaledSlippageOvercharges(m, order.sizeUsd, executed);
      }
    }
  }
}
