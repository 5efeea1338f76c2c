/** The plaintext weighted-Nash grid search with unit bargaining weights. */
module WeightedNash {
  import opened Numeric
  import opened Grids
  import opened SecureArgmax
  import opened Field

  const TIE: real := 0.000000001  // TIE_BREAK_TOLERANCE

  datatype Reason = NoFeasibleAllocation | CapacityExceeded | BatnaFloorUnreachable

  datatype Solution = Solution(quantity: real, product: real, feasible: bool, reason: Option<Reason>)

  /** The product of the first n parties' gains. */
  function Product(parties: seq<Party>, q: real, n: nat): (r: real)
    requires n <= |parties|
    ensures r >= 0.0
  {
    if n == 0 then 1.0
    else
      var rest, gain := Product(parties, q, n - 1), parties[n - 1].Gain(q);
      assert rest * gain >= 0.0;
      rest * gain
  }

  function Nash(parties: seq<Party>, q: real): real {
    Product(parties, q, |parties|)
  }

  lemma {:induction false} ProductZero(parties: seq<Party>, q: real, k: nat, n: nat)
    requires k < n <= |parties| && parties[k].Gain(q) == 0.0
    ensures Product(parties, q, n) == 0.0
  {
    if k < n - 1 {
      ProductZero(parties, q, k, n - 1);
    }
  }

  /** The product is positive exactly when every party strictly beats its walk-away value. */
  lemma {:induction false} ProductPositiveIff(parties: seq<Party>, q: real, n: nat)
    requires n <= |parties|
    ensures Product(parties, q, n) > 0.0 <==> forall k :: 0 <= k < n ==> parties[k].u(q) > parties[k].outside
  {
    if n > 0 {
      ProductPositiveIff(parties, q, n - 1);
      var rest, gain := Product(parties, q, n - 1), parties[n - 1].Gain(q);
      if rest > 0.0 && gain > 0.0 {
        assert rest * gain > 0.0;
      }
      assert gain > 0.0 <==> parties[n - 1].u(q) > parties[n - 1].outside;
    }
  }

  lemma ProductStep(parties: seq<Party>, q: real, n: nat)
    requires n < |parties|
    ensures Product(parties, q, n + 1) == Product(parties, q, n) * Max(0.0, parties[n].u(q) - parties[n].outside)
  {
  }

  lemma EmptyProduct(q: real)
    ensures Product([], q, 0) == 1.0
  {
  }

  /** For two parties it is the product of what each gains over walking away, nothing counted below zero. */
  lemma TwoPartyProduct(parties: seq<Party>, q: real)
    requires |parties| == 2
    ensures Nash(parties, q) ==
      Max(0.0, parties[0].u(q) - parties[0].outside) * Max(0.0, parties[1].u(q) - parties[1].outside)
  {
    var a, b := parties[0].Gain(q), parties[1].Gain(q);
    assert Product(parties, q, 1) == 1.0 * a;
    assert Product(parties, q, 2) == Product(parties, q, 1) * b;
  }

  lemma {:induction false} SamePrefix(parties: seq<Party>, p: Party, q: real, n: nat)
    requires n <= |parties|
    ensures Product(parties + [p], q, n) == Product(parties, q, n)
  {
    if n > 0 {
      SamePrefix(parties, p, q, n - 1);
    }
  }

  /** In general each further party multiplies the product by its own gain; nobody's product is 1. */
  lemma ProductGrows(parties: seq<Party>, p: Party, q: real)
    ensures Nash([], q) == 1.0
    ensures Nash(parties + [p], q) == Nash(parties, q) * Max(0.0, p.u(q) - p.outside)
  {
    hide Product;
    SamePrefix(parties, p, q, |parties|);
    ProductStep(parties + [p], q, |parties|);
    EmptyProduct(q);
  }

  /** `compute_nash_product` with its early return on a party without gain. */
  method ComputeNashProduct(parties: seq<Party>, q: real) returns (product: real)
    ensures product == Nash(parties, q)
    ensures |parties| == 2 ==>
      product == Max(0.0, parties[0].u(q) - parties[0].outside) * Max(0.0, parties[1].u(q) - parties[1].outside)
  {
    if |parties| == 2 {
      TwoPartyProduct(parties, q);
    }
    product := 1.0;
    for k := 0 to |parties|
      invariant product == Product(parties, q, k)
    {
      var gain := parties[k].Gain(q);
      if gain == 0.0 {
        ProductZero(parties, q, k, |parties|);
        return 0.0;
      }
      product := product * gain;
    }
  }

  /** Index the scan keeps after n candidates: later ones must win by more than the tolerance. */
  function Kept(products: seq<real>, n: nat): (k: nat)
    requires 0 < n <= |products|
    ensures k < n
  {
    if n == 1 then 0
    else
      var k := Kept(products, n - 1);
      if products[n - 1] > products[k] + TIE then n - 1 else k
  }

  lemma KeptStep(products: seq<real>, i: nat)
    requires i < |products|
    ensures Kept(products, i + 1) ==
      if i == 0 then 0 else if products[i] > products[Kept(products, i)] + TIE then i else Kept(products, i)
  {
  }

  /** The kept product never falls, and trails no scanned product by more than the tolerance. */
  lemma {:induction false} KeptIsNearMaximal(products: seq<real>, n: nat)
    requires 0 < n <= |products|
    ensures products[Kept(products, n)] >= products[0]
    ensures Kept(products, n) != 0 ==> products[Kept(products, n)] > products[0] + TIE
    ensures forall i :: 0 <= i < n ==> products[i] <= products[Kept(products, n)] + TIE
    ensures forall i :: 0 <= i < Kept(products, n) ==> products[i] < products[Kept(products, n)]
  {
    if n > 1 {
      KeptIsNearMaximal(products, n - 1);
    }
  }

  function GridPoint(upper: real, i: nat): real {
    upper * i as real / (LEVELS - 1) as real
  }

  function Products(parties: seq<Party>, upper: real): (r: seq<real>)
    ensures |r| == LEVELS
  {
    seq(LEVELS, i requires 0 <= i => Nash(parties, GridPoint(upper, i)))
  }

  /** What the search promises about its solution on a single-period problem with upper > 0. */
  ghost predicate Returned(parties: seq<Party>, upper: real, s: Solution) {
    && (s.feasible <==> exists i :: 0 <= i < LEVELS && Products(parties, upper)[i] > 0.0)
    && (s.feasible ==> var k := Kept(Products(parties, upper), LEVELS);
                       s.quantity == GridPoint(upper, k) && s.product == Products(parties, upper)[k] && s.reason.None?)
    && (!s.feasible ==> s == Solution(GridPoint(upper, 0), 0.0, false, Some(BatnaFloorUnreachable)))
  }

  lemma NashNonNegative(parties: seq<Party>, q: real)
    ensures Nash(parties, q) >= 0.0
  {
  }

  /** `plaintext_argmax`. */
  method PlaintextArgmax(parties: seq<Party>, nPeriods: nat, upper: real) returns (s: Solution)
    ensures nPeriods != 1 ==> s == Solution(0.0, 0.0, false, Some(NoFeasibleAllocation))
    ensures nPeriods == 1 && upper <= 0.0 ==> s == Solution(0.0, 0.0, false, Some(CapacityExceeded))
    ensures nPeriods == 1 && upper > 0.0 ==> Returned(parties, upper, s)
  {
    if nPeriods != 1 {
      return Solution(0.0, 0.0, false, Some(NoFeasibleAllocation));
    }
    if upper <= 0.0 {
      return Solution(0.0, 0.0, false, Some(CapacityExceeded));
    }
    hide Nash, GridPoint, Kept;
    ghost var products := Products(parties, upper);
    var bestProduct := -1.0;
    var best: Option<real> := None;
    var anyFeasible := false;
    for i := 0 to LEVELS
      invariant i == 0 ==> bestProduct == -1.0 && best.None?
      invariant i > 0 ==> bestProduct == products[Kept(products, i)] && best == Some(GridPoint(upper, Kept(products, i)))
      invariant anyFeasible <==> exists j :: 0 <= j < i && products[j] > 0.0
    {
      KeptStep(products, i);
      var q := GridPoint(upper, i);
      var product := ComputeNashProduct(parties, q);
      NashNonNegative(parties, q);
      assert products[i] == product;
      if product > 0.0 {
        anyFeasible := true;
      }
      if product > bestProduct + TIE {
        bestProduct := product;
        best := Some(q);
      }
    }
    if !anyFeasible || best.None? {
      s := Solution(GridPoint(upper, 0), 0.0, false, Some(BatnaFloorUnreachable));
    } else {
      s := Solution(best.value, bestProduct, true, None);
    }
  }

  // ---- what the returned solution is worth

  /** The 64 quantities divide [0, upper] evenly, and are those of the secure search. */
  lemma GridPointIs(p: Problem, upper: real, i: nat)
    ensures GridPoint(upper, i) * 63.0 == upper * i as real
    ensures upper == p.upper ==> GridPoint(upper, i) == p.Quantity(i)
  {
    DivMul(upper * i as real, 63.0);
  }

  /** Both parties do strictly better than by walking away. */
  ghost predicate BothGain(p0: Party, p1: Party, q: real) {
    p0.u(q) > p0.outside && p1.u(q) > p1.outside
  }

  /** The product of what the two parties gain over walking away. */
  function GainProduct(p0: Party, p1: Party, q: real): real {
    Max(0.0, p0.u(q) - p0.outside) * Max(0.0, p1.u(q) - p1.outside)
  }

  lemma BothGainIff(p0: Party, p1: Party, q: real)
    ensures BothGain(p0, p1, q) <==> GainProduct(p0, p1, q) > 0.0
  {
    var a, b := Max(0.0, p0.u(q) - p0.outside), Max(0.0, p1.u(q) - p1.outside);
    if a > 0.0 && b > 0.0 {
      MulStrict(0.0, a, b);
    }
  }

  /** Within 1e-9 of every grid product; above 1e-9 somewhere, every party strictly gains. */
  lemma NearMaximalAndRational(parties: seq<Party>, upper: real, s: Solution)
    requires Returned(parties, upper, s) && s.feasible
    ensures forall i :: 0 <= i < LEVELS ==> Products(parties, upper)[i] <= s.product + TIE
    ensures s.product == Nash(parties, s.quantity)
    ensures (exists i :: 0 <= i < LEVELS && Products(parties, upper)[i] > TIE) ==>
      forall k :: 0 <= k < |parties| ==> parties[k].u(s.quantity) > parties[k].outside
  {
    hide Product;
    KeptIsNearMaximal(Products(parties, upper), LEVELS);
    ProductPositiveIff(parties, s.quantity, |parties|);
  }

  lemma NashIsGains(p0: Party, p1: Party, q: real)
    ensures Nash([p0, p1], q) == GainProduct(p0, p1, q)
    ensures Nash([p0, p1], q) > 0.0 <==> BothGain(p0, p1, q)
  {
    TwoPartyProduct([p0, p1], q);
    BothGainIff(p0, p1, q);
  }

  /**
   * The two-party search, in the parties' own utilities: it is feasible exactly when some of the 64
   * quantities leaves both strictly better off than walking away; then its quantity is one of them,
   * its product is the product of the two gains there, no other quantity's product is larger by more
   * than 1e-9, and every smaller quantity's product is strictly smaller.
   */
  lemma TwoPartySearch(p0: Party, p1: Party, upper: real, s: Solution)
    requires Returned([p0, p1], upper, s)
    ensures s.feasible <==> exists i: nat :: i < 64 && BothGain(p0, p1, GridPoint(upper, i))
    ensures s.feasible ==>
      && s.product == GainProduct(p0, p1, s.quantity)
      && (forall i: nat :: i < 64 ==> GainProduct(p0, p1, GridPoint(upper, i)) <= s.product + 0.000000001)
      && exists k: nat :: k < 64 && s.quantity == GridPoint(upper, k)
           && forall i: nat :: i < k ==> GainProduct(p0, p1, GridPoint(upper, i)) < s.product
  {
    hide Nash, Product, GridPoint, Kept, GainProduct, BothGain;
    var products, k := Products([p0, p1], upper), Kept(Products([p0, p1], upper), LEVELS);
    forall i: nat | i < 64
      ensures products[i] == GainProduct(p0, p1, GridPoint(upper, i))
      ensures products[i] > 0.0 <==> BothGain(p0, p1, GridPoint(upper, i))
    {
      NashIsGains(p0, p1, GridPoint(upper, i));
    }
    KeptIsNearMaximal(products, LEVELS);
    if i: nat :| i < 64 && BothGain(p0, p1, GridPoint(upper, i)) {
      assert products[i] > 0.0;
    }
    if s.feasible {
      assert s.quantity == GridPoint(upper, k);
    }
  }

  /** With a log that turns products into sums, the product's log is the secure search's log-product. */
  lemma LogOfProduct(p: Problem, i: nat)
    requires i < LEVELS && p.Feasible(i) && Multiplicative(p.log)
    ensures p.log(Nash([p.p0, p.p1], p.Quantity(i))) == p.LogProduct(i)
  {
    hide Nash, Multiplicative, Problem.LogProduct;
    NashIsGains(p.p0, p.p1, p.Quantity(i));
    LogOfGains(p, i);
  }

  /**
   * `feasible` promises a positive product, but the tolerance can keep a zero one: that happens
   * exactly when the zero quantity has product 0 and no grid product exceeds 1e-9.
   */
  lemma FeasibleWithZeroProductIff(parties: seq<Party>, upper: real, s: Solution)
    requires Returned(parties, upper, s) && s.feasible
    ensures s.product == 0.0
       <==> Products(parties, upper)[0] == 0.0 && forall i :: 0 <= i < LEVELS ==> Products(parties, upper)[i] <= TIE
  {
    hide Nash;
    var products := Products(parties, upper);
    KeptIsNearMaximal(products, LEVELS);
    NashNonNegative(parties, GridPoint(upper, 0));
    assert products[0] == Nash(parties, GridPoint(upper, 0));
  }

  lemma {:induction false} ProductMonotone(parties: seq<Party>, q: real, q': real, n: nat)
    requires n <= |parties|
    requires forall k :: 0 <= k < n ==> parties[k].u(q) <= parties[k].u(q')
    ensures Product(parties, q, n) <= Product(parties, q', n)
  {
    if n > 0 {
      ProductMonotone(parties, q, q', n - 1);
      var a, b := Product(parties, q, n - 1), Product(parties, q', n - 1);
      var c, d := parties[n - 1].Gain(q), parties[n - 1].Gain(q');
      MulBoth(a, b, c, d);
    }
  }

  /** A grid quantity that suits every party at least as well improves the product by at most 1e-9. */
  lemma DominatingCandidateGainsLittle(parties: seq<Party>, upper: real, s: Solution, i: nat)
    requires Returned(parties, upper, s) && s.feasible && i < LEVELS
    requires forall k :: 0 <= k < |parties| ==> parties[k].u(s.quantity) <= parties[k].u(GridPoint(upper, i))
    ensures s.product <= Nash(parties, GridPoint(upper, i)) <= s.product + TIE
  {
    hide Product;
    KeptIsNearMaximal(Products(parties, upper), LEVELS);
    ProductMonotone(parties, s.quantity, GridPoint(upper, i), |parties|);
    assert Products(parties, upper)[i] == Nash(parties, GridPoint(upper, i));
  }

  /** The plaintext search and the MPC mask agree on which grid quantities are feasible. */
  lemma SameFeasibleSet(p: Problem, i: nat)
    requires i < LEVELS
    ensures Products([p.p0, p.p1], p.upper)[i] > 0.0 <==> p.Feasible(i)
  {
    hide Product;
    var parties := [p.p0, p.p1];
    assert Products(parties, p.upper)[i] == Nash(parties, GridPoint(p.upper, i));
    ProductPositiveIff(parties, GridPoint(p.upper, i), 2);
    var q := p.Quantity(i);
    assert GridPoint(p.upper, i) == q;
    assert parties[0].u(q) > parties[0].outside <==> p.p0.Gain(q) > 0.0;
    assert parties[1].u(q) > parties[1].outside <==> p.p1.Gain(q) > 0.0;
  }

  /** Candidate i beats every other by more than either search tolerates. */
  ghost predicate ClearWinner(p: Problem, i: nat) {
    && i < LEVELS
    && (forall j: nat {:trigger p.LogProduct(j)} :: j < LEVELS && j != i && p.Feasible(j) ==>
         p.LogProduct(i) > p.LogProduct(j) + 2.0 / SCALE as real)
    && forall j :: 0 <= j < LEVELS && j != i ==>
         Products([p.p0, p.p1], p.upper)[i] > Products([p.p0, p.p1], p.upper)[j] + TIE
  }

  /**
   * Parity: a candidate whose product beats every other's by more than 1e-9, and whose log-product
   * beats every feasible other's by more than 2/2^32, is what both searches return.
   */
  lemma SearchesAgree(p: Problem, s: Solution, i: nat)
    requires Returned([p.p0, p.p1], p.upper, s) && ClearWinner(p, i)
    ensures s.feasible && s.quantity == p.Quantity(i)
    ensures Best(p.Mask(), p.Scores(), LEVELS) == i
  {
    hide Nash, Best, Problem.LogProduct, Problem.Feasible;
    var products := Products([p.p0, p.p1], p.upper);
    var other := if i == 0 then 1 else 0;
    NashNonNegative([p.p0, p.p1], GridPoint(p.upper, other));
    assert products[other] == Nash([p.p0, p.p1], GridPoint(p.upper, other));
    assert products[i] > products[other] + TIE;
    KeptIsNearMaximal(products, LEVELS);
    assert Kept(products, LEVELS) == i;
    SameFeasibleSet(p, i);
    p.WinnerWithinFixedPointError(i);
  }

  /** Such an input: one party whose gains stay below the tolerance everywhere. */
  lemma TinyGainsKeepZero(s: Solution)
    requires Returned([Party(q => 0.000000000001 * q, 0.0)], 63.0, s)
    ensures s.feasible && s.product == 0.0
  {
    var parties := [Party(q => 0.000000000001 * q, 0.0)];
    var products := Products(parties, 63.0);
    forall i: nat | i < LEVELS
      ensures products[i] == 0.000000000001 * i as real
    {
      var q := GridPoint(63.0, i);
      assert q == i as real;
      assert Product(parties, q, 0) == 1.0;
      assert Nash(parties, q) == 1.0 * parties[0].Gain(q);
    }
    assert products[1] > 0.0;
    FeasibleWithZeroProductIff(parties, 63.0, s);
  }
}
