/** The values every accountant shares: bars, orders, fills and round trips. */
module Market {
  datatype Option<+T> = None | Some(value: T)

  datatype Side = Buy | Sell

  datatype Bar = Bar(timestamp: int, open: real, high: real, low: real, close: real, volume: real,
                     fundingRate: real, openInterest: real, socialScore: real, netFlow: real)

  datatype Order = Order(side: Side, sizeUsd: real, symbol: string, timestamp: int)

  datatype Costs = Costs(fee: real, gas: real, slippage: real) {
    function Total(): real { fee + gas + slippage }
  }

  datatype Fill = Fill(order: Order, price: real, costs: Costs)

  /** A closed round trip: the fill that opened it and the fill that closed it. */
  datatype Trade = Trade(entry: Fill, exit: Fill, pnl: real)

  /** A strategy is any function of the history it is shown; a cost model any function of order and bar. */
  type Strategy = seq<Bar> -> Option<Order>
  type CostModel = (Order, Bar) -> Costs

  /** Size tolerance of the accounting code, in USD. */
  const TOLERANCE: real := 0.000000001

  function Max(x: real, y: real): real { if x >= y then x else y }

  function Min(x: real, y: real): real { if x <= y then x else y }

  /** Units bought or sold by `usd` at `price`; a non-positive price moves no units. */
  function UnitsAt(usd: real, price: real): real {
    if price > 0.0 then usd / price else 0.0
  }

  /** USD value of `units` at `price`. */
  function Worth(units: real, price: real): real { units * price }

  /** The bar's close with the modelled slippage priced in, against the order. */
  function SlippedPrice(order: Order, close: real, slippage: real): real {
    var pct := if order.sizeUsd > 0.0 then slippage / order.sizeUsd else 0.0;
    close * (if order.side.Buy? then 1.0 + pct else 1.0 - pct)
  }

  /** A bar whose four prices agree, for concrete runs. */
  function FlatBar(timestamp: int, price: real): Bar {
    Bar(timestamp, price, price, price, price, 1.0, 0.0, 0.0, 0.0, 0.0)
  }

  lemma UnitsTimesPrice(usd: real, price: real)
    requires price > 0.0
    ensures UnitsAt(usd, price) * price == usd
  {
  }

  lemma UnitsOrder(usd: real, units: real, price: real)
    requires price > 0.0
    ensures UnitsAt(usd, price) <= units <==> usd <= units * price
    ensures usd >= 0.0 ==> UnitsAt(usd, price) >= 0.0
    ensures usd > 0.0 ==> UnitsAt(usd, price) > 0.0
  {
    var q := UnitsAt(usd, price);
    assert q * price == usd;
    if q <= units {
      assert (units - q) * price >= 0.0;
    } else {
      assert (q - units) * price > 0.0;
    }
  }
}
