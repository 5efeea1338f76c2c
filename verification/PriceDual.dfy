/** Price-only dual: one price moves until the buyer's and the supplier's quantities meet. */
module PriceDual {
  import opened Numeric
  import opened Grids

  datatype Record = Record(quantities: seq<real>, consensus: real, residual: real, price: real)

  /** The price in force when record t was made: what the record before it left, at first 0. */
  function PriceBefore(records: seq<Record>, t: nat): real
    requires t <= |records|
  {
    if t == 0 then 0.0 else records[t - 1].price
  }

  datatype Market = Market(grid: seq<real>, buyer: Utility, supplier: Utility, rate: real) {

    /** `price_objective`: the buyer pays the price (sign -1), the supplier earns it (sign +1). */
    function Priced(u: Utility, sign: real, price: real): Utility {
      q => u(q) + sign * price * q
    }

    function Demand(price: real): real
      requires |grid| > 0
    {
      grid[FirstMax(grid, Priced(buyer, -1.0, price))]
    }

    function Supply(price: real): real
      requires |grid| > 0
    {
      grid[FirstMax(grid, Priced(supplier, 1.0, price))]
    }

    function Excess(price: real): real
      requires |grid| > 0
    {
      Demand(price) - Supply(price)
    }

    function Adjust(price: real): real
      requires |grid| > 0
    {
      price + rate * Excess(price)
    }

    /** The price in force during iteration t. */
    function PriceAt(t: nat): real
      requires |grid| > 0
    {
      if t == 0 then 0.0 else Adjust(PriceAt(t - 1))
    }

    function RecordAt(price: real): Record
      requires |grid| > 0
    {
      var qs := [Demand(price), Supply(price)];
      Record(qs, Mean(qs), Max(Abs(qs[0] - Mean(qs)), Abs(qs[1] - Mean(qs))), Adjust(price))
    }

    function Trace(k: nat): (records: seq<Record>)
      requires |grid| > 0
      ensures |records| == k
    {
      if k == 0 then [] else Trace(k - 1) + [RecordAt(PriceAt(k - 1))]
    }

    method Iterate(price: real) returns (record: Record)
      requires |grid| > 0
      ensures record == RecordAt(price)
    {
      var buyerQ := Argmax(grid, Priced(buyer, -1.0, price));
      var supplierQ := Argmax(grid, Priced(supplier, 1.0, price));
      var quantities := [buyerQ, supplierQ];
      var consensus := Mean(quantities);
      var residual := Max(Abs(quantities[0] - consensus), Abs(quantities[1] - consensus));
      record := Record(quantities, consensus, residual, price + rate * (buyerQ - supplierQ));
    }

    lemma RecordPrice(price: real)
      requires |grid| > 0
      ensures RecordAt(price).price == Adjust(price)
    {
    }

    /** What quantity q leaves the buyer, who pays the price, and the supplier, who earns it. */
    function BuyerNet(price: real, q: real): real {
      buyer(q) - price * q
    }

    function SupplierNet(price: real, q: real): real {
      supplier(q) + price * q
    }

    /** Grid point i is the first that leaves the buyer most. */
    ghost predicate Buys(price: real, i: nat) {
      && i < |grid|
      && (forall k: nat :: k < |grid| ==> BuyerNet(price, grid[k]) <= BuyerNet(price, grid[i]))
      && (forall k: nat :: k < i ==> BuyerNet(price, grid[k]) < BuyerNet(price, grid[i]))
    }

    /** And the first that leaves the supplier most. */
    ghost predicate Sells(price: real, i: nat) {
      && i < |grid|
      && (forall k: nat :: k < |grid| ==> SupplierNet(price, grid[k]) <= SupplierNet(price, grid[i]))
      && (forall k: nat :: k < i ==> SupplierNet(price, grid[k]) < SupplierNet(price, grid[i]))
    }

    lemma PricedIsNet(price: real, q: real)
      ensures Priced(buyer, -1.0, price)(q) == BuyerNet(price, q)
      ensures Priced(supplier, 1.0, price)(q) == SupplierNet(price, q)
    {
    }

    lemma ChoicesAreFirstBest(price: real)
      requires |grid| > 0
      ensures exists i: nat :: Buys(price, i) && grid[i] == Demand(price)
      ensures exists j: nat :: Sells(price, j) && grid[j] == Supply(price)
    {
      hide FirstMax, FirstMaxTo, Priced, BuyerNet, SupplierNet;
      var f, g := Priced(buyer, -1.0, price), Priced(supplier, 1.0, price);
      var i, j := FirstMax(grid, f), FirstMax(grid, g);
      FirstMaxIsFirst(grid, f);
      FirstMaxIsFirst(grid, g);
      forall k: nat | k < |grid|
        ensures f(grid[k]) == BuyerNet(price, grid[k]) && g(grid[k]) == SupplierNet(price, grid[k])
      {
        PricedIsNet(price, grid[k]);
      }
      assert Buys(price, i) && Sells(price, j);
    }

    /** The first best choices are unique. */
    lemma OneFirstBest(price: real, i: nat, j: nat)
      ensures Buys(price, i) && Buys(price, j) ==> i == j
      ensures Sells(price, i) && Sells(price, j) ==> i == j
    {
      hide BuyerNet, SupplierNet;
    }

    lemma ResidualIsHalfTheGap(price: real)
      requires |grid| > 0
      ensures RecordAt(price).residual == Abs(Demand(price) - Supply(price)) / 2.0
      ensures RecordAt(price).consensus == (Demand(price) + Supply(price)) / 2.0
    {
      hide Demand, Supply, Adjust;
      var qs := [Demand(price), Supply(price)];
      assert SumTo(qs, 1) == qs[0];
      assert Sum(qs) == qs[0] + qs[1];
      assert Mean(qs) == (qs[0] + qs[1]) / 2.0;
    }

    /** One round at a price: both sides choose their best, and the price moves by the rate times their gap. */
    ghost predicate IsRound(price: real, record: Record) {
      && |record.quantities| == 2
      && (exists i: nat :: Buys(price, i) && grid[i] == record.quantities[0])
      && (exists j: nat :: Sells(price, j) && grid[j] == record.quantities[1])
      && record.consensus == (record.quantities[0] + record.quantities[1]) / 2.0
      && record.residual == Abs(record.quantities[0] - record.quantities[1]) / 2.0
      && record.price - price == rate * (record.quantities[0] - record.quantities[1])
    }

    lemma RoundOf(price: real)
      requires |grid| > 0
      ensures IsRound(price, RecordAt(price))
    {
      hide Demand, Supply, Mean, Buys, Sells;
      ChoicesAreFirstBest(price);
      ResidualIsHalfTheGap(price);
    }

    lemma {:induction false} TraceAt(k: nat, t: nat)
      requires |grid| > 0 && t < k
      ensures Trace(k)[t] == RecordAt(PriceAt(t))
    {
      hide RecordAt;
      if t < k - 1 {
        TraceAt(k - 1, t);
      }
    }

    /** Every record is a round at the price the record before it left, the first at price 0. */
    lemma RoundsChain(k: nat, t: nat)
      requires |grid| > 0 && t < k
      ensures IsRound(PriceBefore(Trace(k), t), Trace(k)[t])
    {
      hide IsRound, Demand, Supply;
      TraceAt(k, t);
      RoundOf(PriceAt(t));
      if t > 0 {
        TraceAt(k, t - 1);
      }
    }

    /** The price moves strictly towards the side that is short, and rests exactly when the two meet. */
    lemma PriceFollowsGap(price: real, record: Record)
      requires rate > 0.0 && IsRound(price, record)
      ensures record.price > price <==> record.quantities[0] > record.quantities[1]
      ensures record.price < price <==> record.quantities[0] < record.quantities[1]
      ensures record.price == price <==> record.quantities[0] == record.quantities[1]
    {
      var gap := record.quantities[0] - record.quantities[1];
      if gap > 0.0 {
        MulStrict(0.0, gap, rate);
      } else if gap < 0.0 {
        MulStrict(gap, 0.0, rate);
      }
    }

    method Run(maxIter: nat, tolerance: real) returns (records: seq<Record>, converged: bool)
      requires |grid| > 0 && maxIter > 0
      ensures 0 < |records| <= maxIter && records == Trace(|records|)
      ensures forall t: nat :: t < |records| ==> IsRound(PriceBefore(records, t), records[t])
      ensures forall t :: 0 <= t < |records| - 1 ==> records[t].residual > tolerance
      ensures converged == (records[|records| - 1].residual <= tolerance)
      ensures !converged ==> |records| == maxIter
    {
      hide Demand, Supply, FirstMax, FirstMaxTo, Mean, IsRound, RecordAt;
      var price := 0.0;
      records, converged := [], false;
      for iteration := 0 to maxIter
        invariant price == PriceAt(iteration)
        invariant records == Trace(iteration) && |records| == iteration && !converged
        invariant forall t :: 0 <= t < iteration ==> records[t].residual > tolerance
      {
        var record := Iterate(price);
        assert record.price == PriceAt(iteration + 1) by { RecordPrice(price); }
        price := record.price;
        records := records + [record];
        if record.residual <= tolerance {
          converged := true;
          break;
        }
      }
      forall t: nat | t < |records|
        ensures IsRound(PriceBefore(records, t), records[t])
      {
        RoundsChain(|records|, t);
      }
    }

    // ---- what the two sides choose at a price

    lemma DemandIsBest(price: real, i: nat)
      requires i < |grid|
      ensures Demand(price) in grid
      ensures buyer(grid[i]) - price * grid[i] <= buyer(Demand(price)) - price * Demand(price)
    {
      hide FirstMax, FirstMaxTo;
      var f := Priced(buyer, -1.0, price);
      FirstMaxIsFirst(grid, f);
      assert f(grid[i]) <= f(Demand(price));
      assert f(grid[i]) == buyer(grid[i]) - price * grid[i];
      assert f(Demand(price)) == buyer(Demand(price)) - price * Demand(price);
    }

    lemma SupplyIsBest(price: real, i: nat)
      requires i < |grid|
      ensures Supply(price) in grid
      ensures supplier(grid[i]) + price * grid[i] <= supplier(Supply(price)) + price * Supply(price)
    {
      hide FirstMax, FirstMaxTo;
      var f := Priced(supplier, 1.0, price);
      FirstMaxIsFirst(grid, f);
      assert f(grid[i]) <= f(Supply(price));
      assert f(grid[i]) == supplier(grid[i]) + price * grid[i];
      assert f(Supply(price)) == supplier(Supply(price)) + price * Supply(price);
    }

    /** Two optimality comparisons at two prices order the quantities. */
    lemma Exchange(p: real, p': real, q: real, q': real, u: real, u': real)
      requires p < p'
      requires u' - p * q' <= u - p * q
      requires u - p' * q <= u' - p' * q'
      ensures q' <= q
    {
      var d, e := p' - p, q' - q;
      assert d * e <= 0.0 by {
        assert d * e == p' * q' - p' * q - p * q' + p * q;
      }
      if e > 0.0 {
        MulStrict(0.0, d, e);
      }
    }

    /** A dearer price never raises the quantity the buyer asks for, whatever its utility. */
    lemma DemandFalls(p: real, p': real)
      requires |grid| > 0 && p < p'
      ensures Demand(p') <= Demand(p)
    {
      hide FirstMax, FirstMaxTo;
      var k, k' := FirstMax(grid, Priced(buyer, -1.0, p)), FirstMax(grid, Priced(buyer, -1.0, p'));
      DemandIsBest(p, k');
      DemandIsBest(p', k);
      Exchange(p, p', Demand(p), Demand(p'), buyer(Demand(p)), buyer(Demand(p')));
    }

    /** A dearer price never lowers the quantity the supplier offers, whatever its utility. */
    lemma SupplyRises(p: real, p': real)
      requires |grid| > 0 && p < p'
      ensures Supply(p) <= Supply(p')
    {
      hide FirstMax, FirstMaxTo;
      var k, k' := FirstMax(grid, Priced(supplier, 1.0, p)), FirstMax(grid, Priced(supplier, 1.0, p'));
      SupplyIsBest(p, k');
      SupplyIsBest(p', k);
      Exchange(-p', -p, Supply(p'), Supply(p), supplier(Supply(p')), supplier(Supply(p)));
    }

    /** Below a clearing price the adjustment is upward, above it downward. */
    lemma AdjustmentPointsToClearing(p: real, clearing: real)
      requires |grid| > 0 && rate >= 0.0 && Excess(clearing) == 0.0
      ensures Adjust(p) - p == rate * (Demand(p) - Supply(p))
      ensures p < clearing ==> Adjust(p) >= p
      ensures p > clearing ==> Adjust(p) <= p
      ensures p == clearing ==> Adjust(p) == p
      ensures rate > 0.0 ==> (Adjust(p) == p <==> Demand(p) == Supply(p))
    {
      hide Demand, Supply;
      if p < clearing {
        DemandFalls(p, clearing);
        SupplyRises(p, clearing);
        MulMonotone(0.0, Excess(p), rate);
      } else if p > clearing {
        DemandFalls(clearing, p);
        SupplyRises(clearing, p);
        MulMonotone(Excess(p), 0.0, rate);
      }
    }

    lemma ExcessBounded(p: real, span: real)
      requires |grid| > 0
      requires forall i, j :: 0 <= i < |grid| && 0 <= j < |grid| ==> grid[i] - grid[j] <= span
      ensures -span <= Excess(p) <= span
    {
      hide FirstMaxTo;
    }

    lemma AdjustInBand(p: real, clearing: real, span: real)
      requires |grid| > 0 && rate >= 0.0 && Excess(clearing) == 0.0
      requires forall i, j :: 0 <= i < |grid| && 0 <= j < |grid| ==> grid[i] - grid[j] <= span
      ensures Abs(Adjust(p) - clearing) <= Max(Abs(p - clearing), rate * span)
    {
      hide Demand, Supply, Excess;
      AdjustmentPointsToClearing(p, clearing);
      ExcessBounded(p, span);
      var move, cap := rate * Excess(p), rate * span;
      ScaleBound(Excess(p), span, rate, move, cap);
      assert Adjust(p) == p + move;
    }

    /**
     * Over a whole run the price never strays further from a clearing price than it
     * started, or than one full-width step of the adjustment, whichever is larger.
     */
    lemma {:induction false} PriceStaysInBand(t: nat, clearing: real, span: real)
      requires |grid| > 0 && rate >= 0.0 && Excess(clearing) == 0.0
      requires forall i, j :: 0 <= i < |grid| && 0 <= j < |grid| ==> grid[i] - grid[j] <= span
      ensures Abs(PriceAt(t) - clearing) <= Max(Abs(clearing), rate * span)
    {
      hide Demand, Supply;
      if t > 0 {
        PriceStaysInBand(t - 1, clearing, span);
        AdjustInBand(PriceAt(t - 1), clearing, span);
      }
    }

    // ---- welfare

    lemma EqualQuantitiesMaximizeWelfare(price: real, i: nat)
      requires i < |grid| && Demand(price) == Supply(price)
      ensures var q := Demand(price);
              q in grid && buyer(grid[i]) + supplier(grid[i]) <= buyer(q) + supplier(q)
    {
      hide Demand, Supply;
      DemandIsBest(price, i);
      SupplyIsBest(price, i);
    }
  }

  /**
   * Welfare theorem on the scenario's own grid: when a run's last record meets a tolerance
   * below half the grid step (less the rounding of the grid points, nil for a step that is a
   * whole number of millionths), both sides chose the same quantity, the consensus is that
   * quantity, and no grid quantity has a higher joint utility.
   */
  lemma ConvergedRunMaximizesWelfare(
      m: Market, upper: real, step: real, price: real, tolerance: real, i: nat)
    requires step > 0.0 && upper >= 0.0 && m.grid == Grid(0.0, upper, step).value
    requires i < |m.grid|
    requires m.RecordAt(price).residual <= tolerance
    requires 2.0 * tolerance < if Millionths(step) then step else step - 0.000001
    ensures m.Demand(price) == m.Supply(price) == m.RecordAt(price).consensus
    ensures var q := m.RecordAt(price).consensus;
            q in m.grid && m.buyer(m.grid[i]) + m.supplier(m.grid[i]) <= m.buyer(q) + m.supplier(q)
  {
    m.ResidualIsHalfTheGap(price);
    var a, b := FirstMax(m.grid, m.Priced(m.buyer, -1.0, price)), FirstMax(m.grid, m.Priced(m.supplier, 1.0, price));
    hide Grid, FirstMax, FirstMaxTo;
    assert Millionths(0.0);
    if a < b {
      GridSeparation(0.0, upper, step, a, b);
    } else if b < a {
      GridSeparation(0.0, upper, step, b, a);
    }
    m.EqualQuantitiesMaximizeWelfare(price, i);
  }
}
