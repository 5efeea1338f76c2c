/** Ledgers, the oracle run and the oracle gap on scenarios of shipped participants. */
module Gap {
  import opened Numeric
  import opened Grids
  import opened PiecewiseLinear
  import opened Oracle
  import opened Sdk
  import F = Formula

  const CAPACITY_SLACK: real := 0.000001

  datatype Ledger = Ledger(local: seq<real>, outside: seq<real>, globalUtility: real, feasible: bool)

  /** `build_ledger` for one quantity per participant; an evaluation error propagates. */
  method BuildLedger(m: F.Math, s: Scenario, quantities: seq<real>) returns (r: Result<Ledger, F.EvalError>)
    requires |quantities| == |s.participants|
    ensures r.Ok? <==> forall i :: 0 <= i < |quantities| ==> Evaluate(m, s.participants[i], s, quantities[i]).Ok?
    ensures r.Ok? ==> |r.value.local| == |r.value.outside| == |quantities|
    ensures r.Ok? ==> forall i :: 0 <= i < |quantities| ==> Evaluate(m, s.participants[i], s, quantities[i]) == Ok(r.value.local[i])
    ensures r.Ok? ==> forall i :: 0 <= i < |quantities| ==> r.value.outside[i] == s.participants[i].outside
    ensures r.Ok? ==> r.value.globalUtility == Sum(r.value.local)
    ensures r.Ok? ==> (r.value.feasible <==>
      forall i :: 0 <= i < |quantities| && s.participants[i].role.Supplier? ==> quantities[i] <= s.capacity + CAPACITY_SLACK)
  {
    hide Evaluate, Sum;
    var local: seq<real>, outside: seq<real> := [], [];
    for i := 0 to |quantities|
      invariant |local| == |outside| == i
      invariant forall k :: 0 <= k < i ==> Evaluate(m, s.participants[k], s, quantities[k]) == Ok(local[k])
      invariant forall k :: 0 <= k < i ==> outside[k] == s.participants[k].outside
    {
      var u := Evaluate(m, s.participants[i], s, quantities[i]);
      if u.Err? {
        return Err(u.error);
      }
      local := local + [u.value];
      outside := outside + [s.participants[i].outside];
    }
    var feasible := true;
    var i := 0;
    while i < |quantities| && feasible
      invariant 0 <= i <= |quantities|
      invariant feasible ==> forall k :: 0 <= k < i && s.participants[k].role.Supplier? ==> quantities[k] <= s.capacity + CAPACITY_SLACK
      invariant !feasible ==> exists k :: 0 <= k < |quantities| && s.participants[k].role.Supplier? && quantities[k] > s.capacity + CAPACITY_SLACK
    {
      if s.participants[i].role.Supplier? && quantities[i] > s.capacity + CAPACITY_SLACK {
        feasible := false;
      }
      i := i + 1;
    }
    r := Ok(Ledger(local, outside, Sum(local), feasible));
  }

  // ---- scenarios whose formulas are the shipped ones

  /** A shipped formula with its parameters, none of which shadows a scenario constant it reads. */
  ghost predicate Shipped(p: Participant, s: Scenario) {
    && "demand" !in p.parameters && "risk_score" !in p.parameters
    && (|| (p.formula == BuyerFormula() && BUYER_NAMES <= p.parameters.Keys)
        || (p.formula == SupplierFormula() && SUPPLIER_NAMES <= p.parameters.Keys)
        || (p.formula == PackagerFormula() && PACKAGER_NAMES <= p.parameters.Keys
            && var soft := p.parameters["soft_capacity"];
               (soft.Floor as real == soft || soft <= 0.0 || soft >= s.capacity)))
  }

  ghost predicate AllShipped(s: Scenario) {
    && |s.participants| >= 2
    && (forall i :: 0 <= i < |s.participants| ==> Shipped(s.participants[i], s))
    && (exists i :: 0 <= i < |s.participants| && s.participants[i].role.Supplier?)
  }

  ghost function PwlOf(p: Participant, s: Scenario): Pwl
    requires Shipped(p, s)
  {
    var ns := Namespace(p, s, 0.0);
    if p.formula == BuyerFormula() then BuyerPwl(ns)
    else if p.formula == SupplierFormula() then SupplierPwl(ns)
    else PackagerPwl(ns)
  }

  lemma FormulasDiffer()
    ensures BuyerFormula() != SupplierFormula() && BuyerFormula() != PackagerFormula() && SupplierFormula() != PackagerFormula()
  {
  }

  lemma NamespaceKeys(p: Participant, s: Scenario, q: real)
    ensures Namespace(p, s, q).Keys >= p.parameters.Keys + {"demand", "risk_score", "q"}
    ensures Namespace(p, s, q)["q"] == q
    ensures forall x :: x in Namespace(p, s, q).Keys && x != "q" ==>
      x in Namespace(p, s, 0.0).Keys && Namespace(p, s, q)[x] == Namespace(p, s, 0.0)[x]
  {
  }

  lemma BuyerPwlAgrees(a: F.Namespace, b: F.Namespace)
    requires BUYER_NAMES + {"demand"} <= a.Keys * b.Keys
    requires forall x :: x in BUYER_NAMES + {"demand"} ==> a[x] == b[x]
    ensures BuyerPwl(a) == BuyerPwl(b)
  {
  }

  lemma SupplierPwlAgrees(a: F.Namespace, b: F.Namespace)
    requires SUPPLIER_NAMES + {"demand", "risk_score"} <= a.Keys * b.Keys
    requires forall x :: x in SUPPLIER_NAMES + {"demand", "risk_score"} ==> a[x] == b[x]
    ensures SupplierPwl(a) == SupplierPwl(b)
  {
  }

  lemma PackagerPwlAgrees(a: F.Namespace, b: F.Namespace)
    requires PACKAGER_NAMES + {"risk_score"} <= a.Keys * b.Keys
    requires forall x :: x in PACKAGER_NAMES + {"risk_score"} ==> a[x] == b[x]
    ensures PackagerPwl(a) == PackagerPwl(b)
  {
  }

  /** Evaluating a shipped participant at q is evaluating its piecewise-linear form at q. */
  lemma ValueOf(m: F.Math, p: Participant, s: Scenario, q: real)
    requires Shipped(p, s)
    ensures Evaluate(m, p, s, q) == Ok(PwlOf(p, s).At(q))
  {
    hide F.Eval, Pwl.At, BuyerPwl, SupplierPwl, PackagerPwl, BuyerFormula, SupplierFormula, PackagerFormula, Namespace;
    FormulasDiffer();
    NamespaceKeys(p, s, q);
    NamespaceKeys(p, s, 0.0);
    var ns, ns0 := Namespace(p, s, q), Namespace(p, s, 0.0);
    if p.formula == BuyerFormula() {
      BuyerValue(m, ns);
      BuyerPwlAgrees(ns, ns0);
    } else if p.formula == SupplierFormula() {
      SupplierValue(m, ns);
      SupplierPwlAgrees(ns, ns0);
    } else {
      PackagerValue(m, ns);
      PackagerPwlAgrees(ns, ns0);
    }
  }

  lemma KinkOf(p: Participant, s: Scenario)
    requires Shipped(p, s)
    ensures KinksCovered(PwlOf(p, s), s.capacity, s.demandMean)
  {
    hide F.Eval;
    var ns := Namespace(p, s, 0.0);
    assert ns["demand"] == s.demandMean;
  }

  ghost function JointPwl(s: Scenario, n: nat): Pwl
    requires n <= |s.participants| && forall i :: 0 <= i < n ==> Shipped(s.participants[i], s)
  {
    if n == 0 then Pwl(0.0, 0.0, []) else Plus(JointPwl(s, n - 1), PwlOf(s.participants[n - 1], s))
  }

  lemma {:induction false} JointKinks(s: Scenario, n: nat)
    requires n <= |s.participants| && forall i :: 0 <= i < n ==> Shipped(s.participants[i], s)
    ensures KinksCovered(JointPwl(s, n), s.capacity, s.demandMean)
  {
    hide Shipped, PwlOf;
    if n > 0 {
      JointKinks(s, n - 1);
      KinkOf(s.participants[n - 1], s);
    }
  }

  /** The joint utility of a common quantity. */
  ghost function Joint(s: Scenario, q: real): real
    requires AllShipped(s)
  {
    JointPwl(s, |s.participants|).At(q)
  }

  lemma {:induction false} LocalsSum(m: F.Math, s: Scenario, q: real, local: seq<real>, n: nat)
    requires n <= |s.participants| == |local| && forall i :: 0 <= i < n ==> Shipped(s.participants[i], s)
    requires forall i :: 0 <= i < n ==> Evaluate(m, s.participants[i], s, q) == Ok(local[i])
    ensures SumTo(local, n) == JointPwl(s, n).At(q)
  {
    hide Shipped, PwlOf, Evaluate;
    if n == 0 {
      assert JointPwl(s, 0).HingesAt(q, 0) == 0.0;
    } else {
      LocalsSum(m, s, q, local, n - 1);
      ValueOf(m, s.participants[n - 1], s, q);
      PlusAt(JointPwl(s, n - 1), PwlOf(s.participants[n - 1], s), q);
    }
  }

  /** The ledger of a common quantity: always defined, its total is the joint utility. */
  method CommonLedger(m: F.Math, s: Scenario, q: real) returns (l: Ledger)
    requires AllShipped(s)
    ensures l.globalUtility == Joint(s, q)
    ensures l.feasible <==> q <= s.capacity + CAPACITY_SLACK
  {
    hide Evaluate, Shipped, PwlOf;
    forall i | 0 <= i < |s.participants|
      ensures Evaluate(m, s.participants[i], s, q).Ok?
    {
      ValueOf(m, s.participants[i], s, q);
    }
    var quantities := seq(|s.participants|, i => q);
    var r := BuildLedger(m, s, quantities);
    l := r.value;
    forall i | 0 <= i < |s.participants|
      ensures Evaluate(m, s.participants[i], s, q) == Ok(l.local[i])
    {
      assert quantities[i] == q;
    }
    LocalsSum(m, s, q, l.local, |s.participants|);
    var k :| 0 <= k < |s.participants| && s.participants[k].role.Supplier?;
    assert quantities[k] == q;
  }

  method SearchJoint(m: F.Math, s: Scenario, grid: seq<real>) returns (bestQ: real, ledger: Ledger)
    requires AllShipped(s) && |grid| > 0
    ensures bestQ in grid && forall x :: x in grid ==> Joint(s, x) <= Joint(s, bestQ)
    ensures ledger.globalUtility == Joint(s, bestQ)
  {
    hide Joint, AllShipped;
    bestQ := grid[0];
    ledger := CommonLedger(m, s, bestQ);
    for i := 1 to |grid|
      invariant bestQ in grid && ledger.globalUtility == Joint(s, bestQ)
      invariant forall j :: 0 <= j < i ==> Joint(s, grid[j]) <= Joint(s, bestQ)
    {
      var here := CommonLedger(m, s, grid[i]);
      if here.globalUtility > ledger.globalUtility {
        bestQ, ledger := grid[i], here;
      }
    }
  }

  /** `CentralizedOracle.run` with the default unit step; a negative capacity is the ValueError. */
  method RunOracle(m: F.Math, s: Scenario) returns (r: Result<(real, Ledger), string>)
    requires AllShipped(s)
    ensures r.Err? <==> s.capacity < 0.0
    ensures r.Ok? ==> r.value.1.globalUtility == Joint(s, r.value.0)
    ensures r.Ok? ==> IsCandidate(r.value.0, s.capacity, 1.0, [s.demandMean])
    ensures r.Ok? ==> forall c :: IsCandidate(c, s.capacity, 1.0, [s.demandMean]) ==> Joint(s, c) <= r.value.1.globalUtility
    ensures r.Ok? ==> forall x :: 0.0 <= x <= s.capacity ==> Joint(s, x) <= r.value.1.globalUtility
  {
    var candidates := Candidates(s.capacity, 1.0, [s.demandMean]);
    if candidates.Err? {
      return Err(candidates.error);
    }
    var grid := candidates.value;
    var bestQ, ledger := SearchJoint(m, s, grid);
    JointKinks(s, |s.participants|);
    ghost var p := JointPwl(s, |s.participants|);
    forall c | IsCandidate(c, s.capacity, 1.0, [s.demandMean])
      ensures Joint(s, c) <= ledger.globalUtility
    {
      assert c in grid;
    }
    forall x | 0.0 <= x <= s.capacity
      ensures Joint(s, x) <= ledger.globalUtility
    {
      forall c | IsCandidate(c, s.capacity, 1.0, [s.demandMean])
        ensures p.At(c) <= p.At(bestQ)
      {
        assert c in grid;
        assert Joint(s, c) <= Joint(s, bestQ);
      }
      BestCandidateIsExact(p, s.capacity, s.demandMean, bestQ, x);
    }
    r := Ok((bestQ, ledger));
  }

  /** `_with_gap_and_transfer`: only capacity-feasible runs are scored. */
  function GapOf(oracle: Ledger, run: Ledger): Option<real> {
    if run.feasible then Some(oracle.globalUtility - run.globalUtility) else None
  }

  /**
   * Score a run's common quantity against the oracle: in [0, capacity] the gap is never negative,
   * and anywhere it is negative exactly when the quantity beats every candidate of the oracle.
   */
  method ScoreRun(m: F.Math, s: Scenario, q: real) returns (gap: Option<real>)
    requires AllShipped(s) && s.capacity >= 0.0
    ensures gap.Some? <==> q <= s.capacity + CAPACITY_SLACK
    ensures 0.0 <= q <= s.capacity ==> gap.Some? && gap.value >= 0.0
    ensures gap.Some? ==> (gap.value < 0.0 <==>
      forall c :: IsCandidate(c, s.capacity, 1.0, [s.demandMean]) ==> Joint(s, c) < Joint(s, q))
  {
    hide Joint, AllShipped, IsCandidate;
    var oracle := RunOracle(m, s);
    var run := CommonLedger(m, s, q);
    gap := GapOf(oracle.value.1, run);
  }

  // ---- exactly when a scored gap can be negative

  /** p's gap at q is non-negative, whichever covered function p and best candidate are meant. */
  ghost predicate GapNonNegative(p: Pwl, upper: real, demand: real, best: real, q: real) {
    KinksCovered(p, upper, demand)
    && IsCandidate(best, upper, 1.0, [demand])
    && (forall c :: IsCandidate(c, upper, 1.0, [demand]) ==> p.At(c) <= p.At(best))
    ==> p.At(q) <= p.At(best)
  }

  /** A tent that rises to q and falls away past it. */
  function Tent(q: real): Pwl {
    Pwl(0.0, 1.0, [Hinge(-3.0, q)])
  }

  lemma TentAt(q: real, x: real)
    ensures Tent(q).At(x) == if x <= q then x else q - 2.0 * (x - q)
  {
    assert Tent(q).HingesAt(x, 1) == Tent(q).HingesAt(x, 0) + Hinge(-3.0, q).At(x);
  }

  /** Only the last unit point can lie above upper. */
  lemma CandidateBelow(c: real, upper: real, demand: real)
    requires 0.0 <= upper && IsCandidate(c, upper, 1.0, [demand])
    ensures c <= upper || c == StepCount(upper, 1.0) as real
  {
    UnitStepCount(upper);
    if i: nat :| i <= StepCount(upper, 1.0) && c == Point(0.0, 1.0, i) {
      UnitPoint(i);
    }
  }

  lemma TentBeatsCandidates(upper: real, demand: real, q: real)
    requires 0.0 <= upper < q && !IsCandidate(q, upper, 1.0, [demand])
    ensures exists p, best :: !GapNonNegative(p, upper, demand, best, q)
  {
    var p, w := Tent(q), StepCount(upper, 1.0);
    StepCountNonNegative(upper, 1.0);
    UnitPoint(w);
    var top := w as real;
    assert IsCandidate(top, upper, 1.0, [demand]);
    TentAt(q, upper);
    TentAt(q, top);
    TentAt(q, q);
    var best := if p.At(upper) < p.At(top) then top else upper;
    forall c | IsCandidate(c, upper, 1.0, [demand])
      ensures p.At(c) <= p.At(best)
    {
      TentAt(q, c);
      CandidateBelow(c, upper, demand);
    }
    assert !GapNonNegative(p, upper, demand, best, q);
  }

  /**
   * The scorer lets quantities up to capacity + 1e-6 through while the oracle's candidates end at
   * capacity, or at the whole number just above it that the 1e-9 nudge lets in. A scored quantity
   * has a non-negative gap for every covered joint utility exactly when it is at most the
   * capacity or is itself a candidate.
   */
  lemma ScoredGapNeverNegativeIff(upper: real, demand: real, q: real)
    requires 0.0 <= upper && 0.0 <= q <= upper + CAPACITY_SLACK
    ensures (forall p, best :: GapNonNegative(p, upper, demand, best, q)) <==> q <= upper || IsCandidate(q, upper, 1.0, [demand])
  {
    if q <= upper || IsCandidate(q, upper, 1.0, [demand]) {
      forall p, best
        ensures GapNonNegative(p, upper, demand, best, q)
      {
        if KinksCovered(p, upper, demand) && IsCandidate(best, upper, 1.0, [demand])
           && forall c :: IsCandidate(c, upper, 1.0, [demand]) ==> p.At(c) <= p.At(best) {
          if q <= upper {
            BestCandidateIsExact(p, upper, demand, best, q);
          }
        }
      }
    } else {
      TentBeatsCandidates(upper, demand, q);
    }
  }
}
