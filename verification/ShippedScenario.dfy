/** The shipped two-party scenario: the figures the repository reports for it, and two nearby inputs. */
module ShippedScenario {
  import opened Numeric
  import opened Grids
  import opened PiecewiseLinear
  import opened Oracle
  import opened Sdk
  import opened Gap
  import Avg = ConsensusAveraging
  import F = Formula

  const DEMAND: real := 500.0
  const CAPACITY: real := 800.0

  function BuyerPart(): Participant {
    Participant(Role.Buyer, BuyerFormula(),
                map["service_level_value" := 100.0, "unit_price" := 50.0, "shortage_penalty" := 80.0, "inventory_penalty" := 5.0], 0.0)
  }

  function SupplierPart(): Participant {
    Participant(Role.Supplier, SupplierFormula(),
                map["revenue_per_unit" := 50.0, "production_cost" := 30.0, "holding_cost" := 3.0, "stockout_penalty" := 6.0,
                    "risk_premium" := 8.0], 0.0)
  }

  /** `build_procurement_scenario` with a demand and a capacity of the caller's choosing. */
  function Built(demand: real, capacity: real): Scenario {
    Scenario(demand, 80.0, 100.0, capacity, 0.0, [BuyerPart(), SupplierPart()])
  }

  /** Its defaults: the base scenario. */
  function Base(): Scenario {
    Built(DEMAND, CAPACITY)
  }

  // ---- the two utilities in closed form, for any demand

  function BuyerCurve(d: real, q: real): real {
    if q <= d then 130.0 * q - 80.0 * d else 105.0 * d - 55.0 * q
  }

  function SupplierCurve(d: real, q: real): real {
    if q <= d then 26.0 * q - 6.0 * d else 17.0 * q + 3.0 * d
  }

  function JointCurve(d: real, q: real): real {
    if q <= d then 156.0 * q - 86.0 * d else 108.0 * d - 38.0 * q
  }

  lemma CurvesOf(d: real, q: real)
    ensures BuyerShape(100.0, 50.0, 80.0, 5.0, d).At(q) == BuyerCurve(d, q)
    ensures SupplierShape(50.0, 30.0, 3.0, 6.0, 0.0, d).At(q) == SupplierCurve(d, q)
  {
    OneHingeAt(-80.0 * d, 130.0, -185.0, d, q, 130.0 * q, -185.0 * Max(q - d, 0.0));
    OneHingeAt(-6.0 * d, 26.0, -9.0, d, q, 26.0 * q, -9.0 * Max(q - d, 0.0));
  }

  lemma BuyerShipped(d: real, c: real)
    ensures Shipped(BuyerPart(), Built(d, c))
    ensures PwlOf(BuyerPart(), Built(d, c)) == BuyerShape(100.0, 50.0, 80.0, 5.0, d)
  {
    hide BuyerShape;
  }

  lemma SupplierShipped(d: real, c: real)
    ensures Shipped(SupplierPart(), Built(d, c))
    ensures PwlOf(SupplierPart(), Built(d, c)) == SupplierShape(50.0, 30.0, 3.0, 6.0, 0.0, d)
  {
    hide SupplierShape;
    FormulasDiffer();
  }

  function BuyerUtility(d: real): Utility { q => BuyerCurve(d, q) }

  function SupplierUtility(d: real): Utility { q => SupplierCurve(d, q) }

  /** Evaluating the buyer's formula in the scenario gives the closed form. */
  lemma BuyerEvaluates(m: F.Math, d: real, c: real, q: real)
    ensures Evaluate(m, BuyerPart(), Built(d, c), q) == Ok(BuyerUtility(d)(q))
  {
    hide Shipped, PwlOf, Evaluate, Pwl.At, BuyerShape, BuyerPart;
    BuyerShipped(d, c);
    ValueOf(m, BuyerPart(), Built(d, c), q);
    CurvesOf(d, q);
  }

  /** And the supplier's. */
  lemma SupplierEvaluates(m: F.Math, d: real, c: real, q: real)
    ensures Evaluate(m, SupplierPart(), Built(d, c), q) == Ok(SupplierUtility(d)(q))
  {
    hide Shipped, PwlOf, Evaluate, Pwl.At, SupplierShape, SupplierPart;
    SupplierShipped(d, c);
    ValueOf(m, SupplierPart(), Built(d, c), q);
    CurvesOf(d, q);
  }

  /** us are the two participants' evaluated formulas. */
  ghost predicate AreUtilities(m: F.Math, us: seq<Utility>, d: real, c: real) {
    && |us| == 2
    && (forall q: real :: Evaluate(m, BuyerPart(), Built(d, c), q) == Ok(us[0](q)))
    && (forall q: real :: Evaluate(m, SupplierPart(), Built(d, c), q) == Ok(us[1](q)))
  }

  lemma CurvesAreUtilities(m: F.Math, d: real, c: real)
    ensures AreUtilities(m, [BuyerUtility(d), SupplierUtility(d)], d, c)
  {
    hide Evaluate, BuyerPart, SupplierPart, Built;
    forall q: real
      ensures Evaluate(m, BuyerPart(), Built(d, c), q) == Ok(BuyerUtility(d)(q))
    {
      BuyerEvaluates(m, d, c, q);
    }
    forall q: real
      ensures Evaluate(m, SupplierPart(), Built(d, c), q) == Ok(SupplierUtility(d)(q))
    {
      SupplierEvaluates(m, d, c, q);
    }
  }

  lemma RoleOf()
    ensures SupplierPart().role.Supplier?
  {
  }

  lemma BuiltShipped(d: real, c: real)
    ensures AllShipped(Built(d, c))
  {
    hide Shipped, BuyerPart, SupplierPart;
    BuyerShipped(d, c);
    SupplierShipped(d, c);
    var ps := Built(d, c).participants;
    assert ps[0] == BuyerPart() && ps[1] == SupplierPart();
    RoleOf();
  }

  lemma ZeroAt(q: real)
    ensures Pwl(0.0, 0.0, []).At(q) == 0.0
  {
    assert Pwl(0.0, 0.0, []).HingesAt(q, 0) == 0.0;
  }

  /** The formulas, parameterized and summed, give the closed form. */
  lemma JointIsCurve(d: real, c: real, q: real)
    requires AllShipped(Built(d, c))
    ensures Joint(Built(d, c), q) == JointCurve(d, q)
  {
    hide Shipped, BuyerPart, SupplierPart, PwlOf, Pwl.At, BuyerShape, SupplierShape;
    BuyerShipped(d, c);
    SupplierShipped(d, c);
    CurvesOf(d, q);
    var s := Built(d, c);
    assert s.participants[0] == BuyerPart() && s.participants[1] == SupplierPart();
    var one := JointPwl(s, 1);
    PlusAt(Pwl(0.0, 0.0, []), PwlOf(BuyerPart(), s), q);
    PlusAt(one, PwlOf(SupplierPart(), s), q);
    assert JointPwl(s, 0) == Pwl(0.0, 0.0, []);
    assert one == Plus(JointPwl(s, 0), PwlOf(BuyerPart(), s));
    assert JointPwl(s, 2) == Plus(one, PwlOf(SupplierPart(), s));
    ZeroAt(q);
  }

  // ---- the reported figures

  /** With demand within capacity the oracle takes exactly the demand, 70 a unit. */
  method OracleTakesDemand(m: F.Math, d: real, c: real) returns (q: real, l: Ledger)
    requires 0.0 <= d <= c
    ensures AllShipped(Built(d, c))
    ensures q == d && l.globalUtility == 70.0 * d
    ensures forall x :: 0.0 <= x <= c ==> Joint(Built(d, c), x) <= 70.0 * d
  {
    hide Joint, AllShipped, BuyerPart, SupplierPart;
    BuiltShipped(d, c);
    var r := RunOracle(m, Built(d, c));
    q, l := r.value.0, r.value.1;
    JointIsCurve(d, c, d);
    JointIsCurve(d, c, q);
    assert Joint(Built(d, c), d) <= l.globalUtility;
    forall x | 0.0 <= x <= c
      ensures Joint(Built(d, c), x) <= 70.0 * d
    {
      JointIsCurve(d, c, x);
    }
  }

  /** On the base scenario: 500 units and 35000. */
  method OracleTakes35000(m: F.Math) returns (q: real, l: Ledger)
    ensures AllShipped(Base()) && Base().capacity == CAPACITY
    ensures q == 500.0 && l.globalUtility == 35000.0
    ensures forall x :: 0.0 <= x <= CAPACITY ==> Joint(Base(), x) <= 35000.0
  {
    hide Joint, AllShipped;
    q, l := OracleTakesDemand(m, DEMAND, CAPACITY);
  }

  /** The grid the mechanisms search: `_scenario_grid` at 25 units. */
  function CoarseGrid(): seq<real> {
    Grid(0.0, ScenarioUpper(Some(CAPACITY), DEMAND), 25.0).value
  }

  /** Its 34 points are the multiples of 25 up to one step past capacity. */
  lemma CoarseGridIs()
    ensures |CoarseGrid()| == 34 && forall i: nat :: i < 34 ==> CoarseGrid()[i] == 25.0 * i as real
  {
    hide Point;
    assert (CAPACITY - 0.0) / 25.0 == 32.0;
    var g := CoarseGrid();
    assert |g| == 34;
    assert Millionths(0.0) && Millionths(25.0);
    forall i: nat | i < 34
      ensures g[i] == 25.0 * i as real
    {
      ExactPoint(0.0, 25.0, i, i as real * 25.0);
    }
  }

  /** One step past capacity lies the supplier's ideal; the buyer's is the demand. */
  lemma IdealsOnGrid()
    ensures |CoarseGrid()| > 0
    ensures CoarseGrid()[FirstMax(CoarseGrid(), BuyerUtility(DEMAND))] == 500.0
    ensures CoarseGrid()[FirstMax(CoarseGrid(), SupplierUtility(DEMAND))] == 825.0
  {
    hide CoarseGrid;
    CoarseGridIs();
    var g := CoarseGrid();
    assert IsFirstMax(g, BuyerUtility(DEMAND), 20);
    assert IsFirstMax(g, SupplierUtility(DEMAND), 33);
    FirstMaxUnique(g, BuyerUtility(DEMAND), 20);
    FirstMaxUnique(g, SupplierUtility(DEMAND), 33);
  }

  lemma AveragedIdeals(ideals: seq<real>)
    requires ideals == [500.0, 825.0]
    ensures Mean(ideals) == 662.5
    ensures Avg.Round(ideals, 0.65, Mean(ideals)).consensus == 662.5 && Avg.Round(ideals, 0.65, Mean(ideals)).residual == 56.875
  {
    hide Avg.Round, Avg.Residual, Mean;
    Avg.TwoPointResidual(500.0, 825.0);
    Avg.RoundKeepsMean(ideals, 0.65);
    Avg.RoundResidual(ideals, 0.65);
  }

  /**
   * Consensus averaging on the base scenario, on its own grid, formulas and inertia: for any
   * iteration limit and any tolerance below 56.875 it never converges and stays 56.875 short at
   * 662.5, whose ledger is worth 28825 and is scored 6175 below the oracle's.
   */
  method AveragingNeverSettles(m: F.Math, maxIter: nat, tolerance: real)
    returns (us: seq<Utility>, records: seq<Avg.Record>, converged: bool, run: Ledger, gap: Option<real>)
    requires maxIter > 0 && tolerance < 56.875
    ensures AreUtilities(m, us, DEMAND, CAPACITY)
    ensures !converged && |records| == maxIter
    ensures |CoarseGrid()| > 0
    ensures forall t :: 0 <= t < maxIter ==>
      var ideals := [CoarseGrid()[FirstMax(CoarseGrid(), us[0])], CoarseGrid()[FirstMax(CoarseGrid(), us[1])]];
      records[t] == Avg.Round(ideals, 0.65, Mean(ideals)) && records[t].consensus == 662.5 && records[t].residual == 56.875
    ensures run.globalUtility == 28825.0 && gap == Some(6175.0)
  {
    hide Joint, AllShipped, BuyerPart, SupplierPart, Avg.Round, FirstMax, Evaluate, CoarseGrid;
    var ideals;
    us := [BuyerUtility(DEMAND), SupplierUtility(DEMAND)];
    IdealsOnGrid();
    records, converged, ideals := Avg.Run(CoarseGrid(), us, 0.65, maxIter, tolerance);
    assert ideals == [500.0, 825.0];
    AveragedIdeals(ideals);
    CurvesAreUtilities(m, DEMAND, CAPACITY);
    BuiltShipped(DEMAND, CAPACITY);
    run := CommonLedger(m, Base(), records[maxIter - 1].consensus);
    JointIsCurve(DEMAND, CAPACITY, 662.5);
    var q, best := OracleTakes35000(m);
    gap := GapOf(best, run);
  }

  /**
   * The capacity slack reaches a ledger: with demand 800 and a capacity half a millionth short of
   * it, the feasible quantity 800 is scored below zero.
   */
  method NegativeGap(m: F.Math) returns (run: Ledger, gap: Option<real>)
    ensures AllShipped(Built(800.0, 799.9999995)) && run.feasible
    ensures run.globalUtility == Joint(Built(800.0, 799.9999995), 800.0)
    ensures gap == Some(-0.000078)
  {
    hide Joint, AllShipped, BuyerPart, SupplierPart, IsCandidate;
    var d, c := 800.0, 799.9999995;
    var s := Built(d, c);
    BuiltShipped(d, c);
    var r := RunOracle(m, s);
    run := CommonLedger(m, s, 800.0);
    UnitCandidatesWithinBoundIff(c, [d]);
    assert r.value.0 <= c;
    assert Joint(s, c) <= r.value.1.globalUtility;
    JointIsCurve(d, c, 800.0);
    JointIsCurve(d, c, c);
    JointIsCurve(d, c, r.value.0);
    gap := GapOf(r.value.1, run);
  }
}
