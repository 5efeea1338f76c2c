/** ADMM on the shipped two-party scenario: where it lands, when that is optimal, and when it is not. */
module ShippedAdmm {
  import opened Numeric
  import opened Grids
  import opened Oracle
  import opened Concave
  import opened Sdk
  import opened Gap
  import opened ShippedScenario
  import opened UnitGrids
  import opened Admm
  import opened AdmmStops
  import C = ConsensusAveraging
  import F = Formula

  /** The network of the shipped scenario with demand d, at the shipped rho. */
  function Table(d: real, grid: seq<real>): Network {
    Network(grid, [BuyerUtility(d), SupplierUtility(d)], 1.5)
  }

  // ---- one subproblem

  /** A curve with value top at d, slope lo before it and hi beyond. */
  function Bent(lo: real, hi: real, d: real, top: real, x: real): real {
    top + (if x <= d then lo else hi) * (x - d)
  }

  lemma CurvesBend(d: real, q: real)
    ensures BuyerCurve(d, q) == Bent(130.0, -55.0, d, 50.0 * d, q)
    ensures SupplierCurve(d, q) == Bent(26.0, 17.0, d, 20.0 * d, q)
  {
  }

  lemma SplitChord(rate: real, l: real, r: real, w: real)
    requires w == l + r
    ensures rate * w == rate * l + rate * r && rate * -r == -(rate * r)
  {
  }

  /** A chord into y is at least as steep as the slope there. */
  lemma ChordInto(lo: real, hi: real, d: real, top: real, x: real, y: real, s: real)
    requires lo >= hi && x <= y && s == if y <= d then lo else hi
    ensures Bent(lo, hi, d, top, y) - Bent(lo, hi, d, top, x) >= s * (y - x)
  {
    var l, r := y - d, d - x;
    SplitChord(lo, l, r, y - x);
    SplitChord(hi, l, r, y - x);
    if x < d < y {
      MulMonotone(hi, lo, r);
    }
  }

  /** A chord out of x is at most as steep as the slope there. */
  lemma ChordOutOf(lo: real, hi: real, d: real, top: real, x: real, y: real, s: real)
    requires lo >= hi && x <= y && s == if x < d then lo else hi
    ensures Bent(lo, hi, d, top, y) - Bent(lo, hi, d, top, x) <= s * (y - x)
  {
    var l, r := y - d, d - x;
    SplitChord(lo, l, r, y - x);
    SplitChord(hi, l, r, y - x);
    if x < d < y {
      MulMonotone(hi, lo, l);
    }
  }

  /** The dual and proximal charges of a subproblem. */
  function Charge(lam: real, z: real, x: real): real {
    lam * x + 0.75 * ((x - z) * (x - z))
  }

  /** What a participant's subproblem maximizes. */
  function Objective(lo: real, hi: real, d: real, top: real, lam: real, z: real, x: real): real {
    Bent(lo, hi, d, top, x) - Charge(lam, z, x)
  }

  /** Its slope at a point, for a given slope of the curve. */
  function Pull(slope: real, lam: real, z: real, at: real): real {
    slope - lam - 1.5 * (at - z)
  }

  /** The objective rises into q and does not rise out of it. */
  predicate Peaks(lo: real, hi: real, d: real, lam: real, z: real, q: real, top: nat) {
    && 0.0 <= q <= top as real && Whole(q)
    && (q > 0.0 ==> Pull(if q <= d then lo else hi, lam, z, q - 0.5) > 0.0)
    && (q < top as real ==> Pull(if q < d then lo else hi, lam, z, q + 0.5) <= 0.0)
  }

  /** Between x and y the linear and proximal charges grow at the slope of their midpoint. */
  lemma ChargeGap(lam: real, z: real, x: real, y: real, mid: real)
    requires mid == lam + 1.5 * ((x + y) / 2.0 - z)
    ensures Charge(lam, z, y) - Charge(lam, z, x) == mid * (y - x)
  {
    var a, b := y - z, x - z;
    assert a * a - b * b == (a + b) * (y - x);
  }

  lemma PeakSlopes(lo: real, hi: real, d: real, lam: real, z: real, q: real, top: nat)
    requires Peaks(lo, hi, d, lam, z, q, top)
    ensures q > 0.0 ==> Pull(if q <= d then lo else hi, lam, z, q - 0.5) > 0.0
    ensures q < top as real ==> Pull(if q < d then lo else hi, lam, z, q + 0.5) <= 0.0
  {
  }

  lemma LeftIsLower(lo: real, hi: real, d: real, top: real, lam: real, z: real, x: real, q: real)
    requires lo >= hi && x <= q - 1.0 && Pull(if q <= d then lo else hi, lam, z, q - 0.5) > 0.0
    ensures Objective(lo, hi, d, top, lam, z, x) < Objective(lo, hi, d, top, lam, z, q)
  {
    hide Bent, Charge;
    var s, mid := if q <= d then lo else hi, lam + 1.5 * ((x + q) / 2.0 - z);
    ChordInto(lo, hi, d, top, x, q, s);
    ChargeGap(lam, z, x, q, mid);
    var w := q - x;
    var cost, rise := mid * w, s * w;
    assert cost < rise by { MulStrict(mid, s, w); }
    assert Charge(lam, z, q) - Charge(lam, z, x) == cost;
    assert Bent(lo, hi, d, top, q) - Bent(lo, hi, d, top, x) >= rise;
    assert Objective(lo, hi, d, top, lam, z, q) - Objective(lo, hi, d, top, lam, z, x) >= rise - cost;
  }

  lemma RightIsNoHigher(lo: real, hi: real, d: real, top: real, lam: real, z: real, q: real, x: real)
    requires lo >= hi && q <= x - 1.0 && Pull(if q < d then lo else hi, lam, z, q + 0.5) <= 0.0
    ensures Objective(lo, hi, d, top, lam, z, x) <= Objective(lo, hi, d, top, lam, z, q)
  {
    hide Bent, Charge;
    var s, mid := if q < d then lo else hi, lam + 1.5 * ((q + x) / 2.0 - z);
    ChordOutOf(lo, hi, d, top, q, x, s);
    ChargeGap(lam, z, q, x, mid);
    MulMonotone(s, mid, x - q);
  }

  /** So q is the first whole quantity at which it is largest. */
  lemma PeakWins(lo: real, hi: real, d: real, top: real, lam: real, z: real, q: real, last: nat, x: real)
    requires lo >= hi && Peaks(lo, hi, d, lam, z, q, last)
    requires 0.0 <= x <= last as real && Whole(x)
    ensures Objective(lo, hi, d, top, lam, z, x) <= Objective(lo, hi, d, top, lam, z, q)
    ensures x < q ==> Objective(lo, hi, d, top, lam, z, x) < Objective(lo, hi, d, top, lam, z, q)
  {
    hide Objective, Pull;
    if x < q {
      WholeBelow(x, q);
      PeakSlopes(lo, hi, d, lam, z, q, last);
      LeftIsLower(lo, hi, d, top, lam, z, x, q);
    } else if q < x {
      WholeBelow(q, x);
      PeakSlopes(lo, hi, d, lam, z, q, last);
      RightIsNoHigher(lo, hi, d, top, lam, z, q, x);
    }
  }

  // ---- one round

  /** The state with opposite duals: what two participants always carry. */
  function Opposed(z: real, a: real): State {
    State(z, [a, -a])
  }

  /** The buyer chooses x and the supplier y in the round that starts at (z, a). */
  ghost predicate RoundPeaks(d: real, top: nat, z: real, a: real, x: real, y: real) {
    Peaks(130.0, -55.0, d, a, z, x, top) && Peaks(26.0, 17.0, d, -a, z, y, top)
  }

  /** Who bends how: the slopes and the value at the demand. */
  function Lo(p: nat): real { if p == 0 then 130.0 else 26.0 }
  function Hi(p: nat): real { if p == 0 then -55.0 else 17.0 }
  function Crest(p: nat, d: real): real { if p == 0 then 50.0 * d else 20.0 * d }

  lemma WorthIsObjective(d: real, grid: seq<real>, s: State, p: nat, x: real)
    requires |s.duals| == 2 && p < 2
    ensures Table(d, grid).Worth(p, s, x) == Objective(Lo(p), Hi(p), d, Crest(p, d), s.duals[p], s.z, x)
  {
    hide BuyerCurve, SupplierCurve, Bent;
    CurvesBend(d, x);
    var n := Table(d, grid);
    assert n.us[p](x) == Bent(Lo(p), Hi(p), d, Crest(p, d), x);
    var y := x - s.z;
    assert n.Half(y) == 0.75 * (y * y);
  }

  lemma LoAboveHi(p: nat)
    ensures Lo(p) >= Hi(p)
  {
  }

  lemma MemberIsWhole(grid: seq<real>, top: nat, x: real)
    requires UnitGrid(grid, top) && x in grid
    ensures 0.0 <= x <= top as real && Whole(x)
  {
  }

  lemma PeakOnGrid(grid: seq<real>, top: nat, d: real, s: State, p: nat, q: real)
    requires UnitGrid(grid, top) && |s.duals| == 2 && p < 2
    requires Peaks(Lo(p), Hi(p), d, s.duals[p], s.z, q, top)
    ensures q in grid
  {
    assert grid[q.Floor] == q;
  }

  lemma ReplyIsPeak(d: real, grid: seq<real>, top: nat, s: State, p: nat, q: real)
    requires UnitGrid(grid, top) && |s.duals| == 2 && p < 2
    requires Peaks(Lo(p), Hi(p), d, s.duals[p], s.z, q, top)
    ensures Table(d, grid).Reply(p, s) == q
  {
    hide Admm.Network.Worth, Objective, Peaks, Lo, Hi, Crest;
    var n := Table(d, grid);
    assert q in grid by { PeakOnGrid(grid, top, d, s, p, q); }
    WorthIsObjective(d, grid, s, p, q);
    forall x | x in grid
      ensures n.Worth(p, s, x) <= n.Worth(p, s, q) && (x < q ==> n.Worth(p, s, x) < n.Worth(p, s, q))
    {
      WorthIsObjective(d, grid, s, p, x);
      assert Lo(p) >= Hi(p) by { LoAboveHi(p); }
      MemberIsWhole(grid, top, x);
      PeakWins(Lo(p), Hi(p), d, Crest(p, d), s.duals[p], s.z, q, top, x);
    }
    n.ReplyIsFirst(p, s, q);
  }

  /** One round from (z, a): the two peaks, their mean, and the residuals recorded. */
  lemma RoundFrom(d: real, grid: seq<real>, top: nat, z: real, a: real, x: real, y: real)
    requires UnitGrid(grid, top) && RoundPeaks(d, top, z, a, x, y)
    ensures var n, s := Table(d, grid), Opposed(z, a);
      && n.Next(s) == Opposed((x + y) / 2.0, a + 0.75 * (x - y))
      && n.PrimalResidual(s) == Abs(x - y) / 2.0
      && n.DualResidual(s) == 1.5 * Abs((x + y) / 2.0 - z)
  {
    hide Peaks, Abs, Admm.Network.Reply;
    var n, s := Table(d, grid), Opposed(z, a);
    ReplyIsPeak(d, grid, top, s, 0, x);
    ReplyIsPeak(d, grid, top, s, 1, y);
    assert n.Replies(s) == [x, y];
    C.TwoPointResidual(x, y);
    assert n.Reprice(s.duals, [x, y], (x + y) / 2.0) == [a + 0.75 * (x - y), -(a + 0.75 * (x - y))];
  }

  // ---- runs, round by round

  lemma Begins(d: real, grid: seq<real>, z0: real)
    requires |grid| > 0
    ensures Table(d, grid).At(z0, 0) == Opposed(z0, 0.0)
  {
    assert seq(2, p => 0.0) == [0.0, -0.0];
  }

  /** The round from (z, a) in which the participants choose x and y. */
  lemma Advance(d: real, grid: seq<real>, top: nat, z0: real, k: nat, z: real, a: real, x: real, y: real)
    requires UnitGrid(grid, top) && Table(d, grid).At(z0, k) == Opposed(z, a) && RoundPeaks(d, top, z, a, x, y)
    ensures var n := Table(d, grid);
      && n.At(z0, k + 1) == n.Next(n.At(z0, k)) == Opposed((x + y) / 2.0, a + 0.75 * (x - y))
      && n.PrimalResidual(n.At(z0, k)) == Abs(x - y) / 2.0
      && n.DualResidual(n.At(z0, k)) == 1.5 * Abs((x + y) / 2.0 - z)
  {
    hide RoundPeaks, Admm.Network.Next;
    RoundFrom(d, grid, top, z, a, x, y);
  }

  /** One of the two residuals of round k is at least bound. */
  ghost predicate Restless(n: Network, z0: real, k: nat, bound: real)
    requires n.Valid()
  {
    n.PrimalResidual(n.At(z0, k)) >= bound || n.DualResidual(n.At(z0, k)) >= bound
  }

  lemma BaseRoundsEarly(grid: seq<real>)
    requires UnitGrid(grid, 800)
    ensures var n := Table(DEMAND, grid);
      n.At(400.0, 5) == Opposed(511.5, -33.75) && forall k: nat :: k < 5 ==> Restless(n, 400.0, k, 1.5)
  {
    hide Admm.Network.At, Admm.Network.PrimalResidual, Admm.Network.DualResidual, Admm.Network.Next;
    Begins(DEMAND, grid, 400.0);
    Advance(DEMAND, grid, 800, 400.0, 0, 400.0, 0.0, 487.0, 417.0);
    Advance(DEMAND, grid, 800, 400.0, 1, 452.0, 52.5, 500.0, 500.0);
    Advance(DEMAND, grid, 800, 400.0, 2, 500.0, 52.5, 500.0, 546.0);
    Advance(DEMAND, grid, 800, 400.0, 3, 523.0, 18.0, 500.0, 546.0);
    Advance(DEMAND, grid, 800, 400.0, 4, 523.0, -16.5, 500.0, 523.0);
  }

  lemma BaseRoundsLate(grid: seq<real>)
    requires UnitGrid(grid, 800)
    ensures var n := Table(DEMAND, grid);
      && (forall k: nat :: 5 <= k < 10 ==> Restless(n, 400.0, k, 1.5))
      && n.PrimalResidual(n.At(400.0, 10)) == 0.0 && n.DualResidual(n.At(400.0, 10)) == 0.0
      && n.Next(n.At(400.0, 10)).z == 500.0
  {
    hide Admm.Network.At, Admm.Network.PrimalResidual, Admm.Network.DualResidual, Admm.Network.Next;
    BaseRoundsEarly(grid);
    Advance(DEMAND, grid, 800, 400.0, 5, 511.5, -33.75, 500.0, 500.0);
    Advance(DEMAND, grid, 800, 400.0, 6, 500.0, -33.75, 500.0, 495.0);
    Advance(DEMAND, grid, 800, 400.0, 7, 497.5, -30.0, 500.0, 495.0);
    Advance(DEMAND, grid, 800, 400.0, 8, 497.5, -26.25, 500.0, 497.0);
    Advance(DEMAND, grid, 800, 400.0, 9, 498.5, -24.0, 500.0, 500.0);
    Advance(DEMAND, grid, 800, 400.0, 10, 500.0, -24.0, 500.0, 500.0);
  }

  lemma OddRounds(grid: seq<real>)
    requires UnitGrid(grid, 800)
    ensures var n := Table(235.0, grid);
      && (forall k: nat :: k < 7 ==> Restless(n, 188.0, k, 0.75))
      && n.PrimalResidual(n.At(188.0, 7)) == 0.5 && n.DualResidual(n.At(188.0, 7)) == 0.0
      && n.Next(n.At(188.0, 7)).z == 234.5
  {
    hide Admm.Network.At, Admm.Network.PrimalResidual, Admm.Network.DualResidual, Admm.Network.Next;
    Begins(235.0, grid, 188.0);
    Advance(235.0, grid, 800, 188.0, 0, 188.0, 0.0, 235.0, 205.0);
    Advance(235.0, grid, 800, 188.0, 1, 220.0, 22.5, 235.0, 246.0);
    Advance(235.0, grid, 800, 188.0, 2, 240.5, 14.25, 235.0, 261.0);
    Advance(235.0, grid, 800, 188.0, 3, 248.0, -5.25, 235.0, 256.0);
    Advance(235.0, grid, 800, 188.0, 4, 245.5, -21.0, 235.0, 243.0);
    Advance(235.0, grid, 800, 188.0, 5, 239.0, -27.0, 235.0, 235.0);
    Advance(235.0, grid, 800, 188.0, 6, 235.0, -27.0, 235.0, 234.0);
    Advance(235.0, grid, 800, 188.0, 7, 234.5, -26.25, 235.0, 234.0);
  }

  /** grid is what ADMM searches in the shipped scenario with demand d and capacity c. */
  ghost predicate CandidateGrid(grid: seq<real>, d: real, c: real) {
    && |grid| > 0 && Ascending(grid)
    && forall x :: x in grid <==> IsCandidate(x, ScenarioUpper(Some(c), d), 1.0, [d, c])
  }

  /** What a finished run on the shipped scenario is: ADMM's trace over the evaluated formulas, its ledger and its gap. */
  ghost predicate RanAdmm(m: F.Math, d: real, c: real, grid: seq<real>, maxIter: nat, tolerance: real,
                          records: seq<Record>, convergence: Convergence) {
    var n, z0 := Table(d, grid), 0.8 * d;
    && CandidateGrid(grid, d, c) && AreUtilities(m, n.us, d, c)
    && 0 < |records| <= maxIter && records == n.Trace(z0, |records|)
    && (convergence.Converged? <==> n.Stops(n.At(z0, |records| - 1), tolerance))
    && (forall k :: 0 <= k < |records| - 1 ==> !n.Stops(n.At(z0, k), tolerance))
    && (!convergence.Converged? ==> |records| == maxIter)
  }

  /** ADMM on the shipped scenario, its ledger, and its gap to the oracle. */
  method RunShipped(m: F.Math, d: real, c: real, maxIter: nat, tolerance: real)
    returns (grid: seq<real>, records: seq<Record>, convergence: Convergence, run: Ledger, gap: Option<real>)
    requires 0.0 <= d <= c && maxIter > 0
    ensures RanAdmm(m, d, c, grid, maxIter, tolerance, records, convergence)
    ensures run.globalUtility == JointCurve(d, records[|records| - 1].consensus)
    ensures gap == if records[|records| - 1].consensus <= c + CAPACITY_SLACK then Some(70.0 * d - run.globalUtility) else None
  {
    hide Joint, AllShipped, IsCandidate, Admm.Network.At, Admm.Network.Stops, Admm.Network.Trace, AreUtilities;
    var candidates := Candidates(ScenarioUpper(Some(c), d), 1.0, [d, c]);
    grid := candidates.value;
    records, convergence := Table(d, grid).Run(0.8 * d, maxIter, tolerance);
    CurvesAreUtilities(m, d, c);
    BuiltShipped(d, c);
    var last := records[|records| - 1].consensus;
    run := CommonLedger(m, Built(d, c), last);
    JointIsCurve(d, c, last);
    var q, best := OracleTakesDemand(m, d, c);
    gap := GapOf(best, run);
  }

  lemma RestlessGoesOn(n: Network, z0: real, k: nat, bound: real, tolerance: real)
    requires n.Valid() && Restless(n, z0, k, bound) && tolerance < bound
    ensures !n.Stops(n.At(z0, k), tolerance)
  {
  }

  lemma LastOfTrace(n: Network, z0: real, k: nat)
    requires n.Valid()
    ensures n.Trace(z0, k + 1)[k] == n.RecordOf(n.At(z0, k))
  {
  }

  /** A run that is restless for k rounds and still in round k stops there. */
  lemma StopsInRound(m: F.Math, d: real, c: real, grid: seq<real>, maxIter: nat, tolerance: real,
                     records: seq<Record>, convergence: Convergence, z0: real, k: nat, bound: real)
    requires RanAdmm(m, d, c, grid, maxIter, tolerance, records, convergence)
    requires tolerance < bound && k < maxIter && z0 == 0.8 * d && |grid| > 0
    requires forall i: nat :: i < k ==> Restless(Table(d, grid), z0, i, bound)
    requires Table(d, grid).Stops(Table(d, grid).At(z0, k), tolerance)
    ensures convergence.Converged? && |records| == k + 1
    ensures records[k].consensus == Table(d, grid).Next(Table(d, grid).At(z0, k)).z
  {
    hide CandidateGrid, AreUtilities, Admm.Network.At, Admm.Network.PrimalResidual, Admm.Network.DualResidual, Admm.Network.Next;
    var n := Table(d, grid);
    forall i: nat | i < k
      ensures !n.Stops(n.At(z0, i), tolerance)
    {
      RestlessGoesOn(n, z0, i, bound, tolerance);
    }
    assert |records| == k + 1;
    LastOfTrace(n, z0, k);
  }

  lemma ShippedGrid(m: F.Math, d: real, grid: seq<real>, maxIter: nat, tolerance: real, records: seq<Record>, convergence: Convergence)
    requires Whole(d) && 0.0 <= 1.5 * d <= CAPACITY && RanAdmm(m, d, CAPACITY, grid, maxIter, tolerance, records, convergence)
    ensures UnitGrid(grid, 800) && |grid| > 0
  {
    hide IsCandidate, AreUtilities, UnitGrid;
    CandidatesAreUnitGrid(grid, 800, d, CAPACITY);
  }

  /**
   * The reported run: from 0.8 x demand, at any tolerance below 1.5 (the shipped 0.01 and the
   * demo's 0.5 among them) and any limit of 11 rounds or more, ADMM converges in round 11 at 500
   * units, whose ledger is worth 35000, with no gap to the oracle.
   */
  method AdmmLandsOnTheOptimum(m: F.Math, maxIter: nat, tolerance: real)
    returns (grid: seq<real>, records: seq<Record>, convergence: Convergence, run: Ledger, gap: Option<real>)
    requires maxIter >= 11 && 0.0 <= tolerance < 1.5
    ensures RanAdmm(m, DEMAND, CAPACITY, grid, maxIter, tolerance, records, convergence)
    ensures convergence.Converged? && |records| == 11 && records[10].consensus == 500.0
    ensures run.globalUtility == 35000.0 && gap == Some(0.0)
  {
    hide RanAdmm, UnitGrid, Admm.Network.At, Admm.Network.PrimalResidual, Admm.Network.DualResidual, Admm.Network.Next;
    grid, records, convergence, run, gap := RunShipped(m, DEMAND, CAPACITY, maxIter, tolerance);
    ShippedGrid(m, DEMAND, grid, maxIter, tolerance, records, convergence);
    BaseRoundsEarly(grid);
    BaseRoundsLate(grid);
    assert 0.8 * DEMAND == 400.0;
    StopsInRound(m, DEMAND, CAPACITY, grid, maxIter, tolerance, records, convergence, 400.0, 10, 1.5);
  }

  /**
   * The same run at the demo's tolerance with demand 235: ADMM reports convergence in round 8 at
   * 234.5, halfway between the two participants' quantities, 78 short of the oracle.
   */
  method AdmmSettlesShort(m: F.Math, maxIter: nat)
    returns (grid: seq<real>, records: seq<Record>, convergence: Convergence, run: Ledger, gap: Option<real>)
    requires maxIter >= 8
    ensures RanAdmm(m, 235.0, CAPACITY, grid, maxIter, 0.5, records, convergence)
    ensures convergence.Converged? && |records| == 8 && records[7].consensus == 234.5
    ensures gap == Some(78.0)
  {
    hide RanAdmm, UnitGrid, Admm.Network.At, Admm.Network.PrimalResidual, Admm.Network.DualResidual, Admm.Network.Next;
    grid, records, convergence, run, gap := RunShipped(m, 235.0, CAPACITY, maxIter, 0.5);
    ShippedGrid(m, 235.0, grid, maxIter, 0.5, records, convergence);
    OddRounds(grid);
    assert 0.8 * 235.0 == 188.0;
    StopsInRound(m, 235.0, CAPACITY, grid, maxIter, 0.5, records, convergence, 188.0, 7, 0.75);
  }

  // ---- when a stop is the optimum

  lemma CurvesAdd(d: real, q: real)
    ensures BuyerCurve(d, q) + SupplierCurve(d, q) == JointCurve(d, q)
  {
  }

  lemma JointOf(d: real, grid: seq<real>, q: real)
    ensures Table(d, grid).Total(q) == JointCurve(d, q)
  {
    hide BuyerCurve, SupplierCurve;
    var u := Table(d, grid).Utilities(q);
    assert u[0] == BuyerCurve(d, q) && u[1] == SupplierCurve(d, q);
    assert SumTo(u, 1) == u[0];
    assert Sum(u) == u[0] + u[1];
    CurvesAdd(d, q);
  }

  lemma OwnSlope(d: real, grid: seq<real>, top: nat, p: nat, k: nat)
    requires UnitGrid(grid, top) && Ascending(grid) && p < 2 && k < top && Whole(d)
    ensures Slope(grid, Own(Table(d, grid), p), k) == if k as real < d then Lo(p) else Hi(p)
  {
    hide BuyerCurve, SupplierCurve;
    var v, x := Own(Table(d, grid), p), k as real;
    assert grid[k] == x && grid[k + 1] == x + 1.0;
    CurvesBend(d, x);
    CurvesBend(d, x + 1.0);
    assert v[k] == Bent(Lo(p), Hi(p), d, Crest(p, d), x);
    assert v[k + 1] == Bent(Lo(p), Hi(p), d, Crest(p, d), x + 1.0);
    assert x < d ==> x + 1.0 <= d by { if x < d { WholeBelow(x, d); } }
  }

  lemma UnitIsAscending(grid: seq<real>, top: nat)
    requires UnitGrid(grid, top)
    ensures Ascending(grid) && forall k: nat {:trigger Rise(grid, k)} :: k < top ==> Rise(grid, k) == 1.0
  {
  }

  lemma PartiesConcave(d: real, grid: seq<real>, top: nat)
    requires UnitGrid(grid, top) && Whole(d)
    ensures ConcaveParties(Table(d, grid))
  {
    UnitIsAscending(grid, top);
    forall p, k: nat | 0 <= p < 2 && 0 < k < top
      ensures SlopeFalls(grid, Own(Table(d, grid), p), k)
    {
      hide Slope, Own;
      OwnSlope(d, grid, top, p, k);
      OwnSlope(d, grid, top, p, k - 1);
    }
  }

  /** One more unit adds 156 below demand and takes 38 beyond. */
  lemma JointRise(d: real, grid: seq<real>, top: nat, k: nat)
    requires UnitGrid(grid, top) && Whole(d) && k < top
    ensures Rise(Table(d, grid).Values(), k) == if k as real < d then 156.0 else -38.0
    ensures Table(d, grid).Total((grid[k] + grid[k + 1]) / 2.0) == (Table(d, grid).Total(grid[k]) + Table(d, grid).Total(grid[k + 1])) / 2.0
  {
    hide Admm.Network.Total;
    var n, x := Table(d, grid), k as real;
    n.ValueAt(k);
    n.ValueAt(k + 1);
    assert x < d ==> x + 1.0 <= d by { if x < d { WholeBelow(x, d); } }
    JointOf(d, grid, x);
    JointOf(d, grid, x + 1.0);
    JointOf(d, grid, x + 0.5);
    assert (grid[k] + grid[k + 1]) / 2.0 == x + 0.5;
  }

  lemma UnitSlack(d: real, grid: seq<real>, tolerance: real)
    ensures Table(d, grid).Slack(1.0, tolerance) == 2.0 * (0.75 + tolerance)
  {
  }

  lemma ShippedIsRegular(d: real, grid: seq<real>, top: nat, tolerance: real)
    requires UnitGrid(grid, top) && Whole(d) && 0.0 <= tolerance <= 0.5
    ensures Regular(Table(d, grid), tolerance) && LinearBetween(Table(d, grid))
  {
    hide Admm.Network.Total, Admm.Network.Values, Admm.Network.Slack, ConcaveParties;
    var n := Table(d, grid);
    UnitIsAscending(grid, top);
    PartiesConcave(d, grid, top);
    UnitSlack(d, grid, tolerance);
    forall k: nat | k + 1 < |grid|
      ensures Abs(Rise(n.Values(), k)) > n.Slack(grid[k + 1] - grid[k], tolerance)
      ensures n.Total((grid[k] + grid[k + 1]) / 2.0) == (n.Total(grid[k]) + n.Total(grid[k + 1])) / 2.0
    {
      JointRise(d, grid, top, k);
    }
  }

  /** Half a unit below the demand and 78 short of it, or half a unit above and 19 short. */
  predicate HalfUnitOff(d: real, z: real) {
    || (z == d - 0.5 && JointCurve(d, d) - JointCurve(d, z) == 78.0)
    || (z == d + 0.5 && JointCurve(d, d) - JointCurve(d, z) == 19.0)
  }

  lemma DemandIsPeak(d: real, q: real)
    ensures JointCurve(d, q) <= JointCurve(d, d) && (q != d ==> JointCurve(d, q) < JointCurve(d, d))
  {
  }

  lemma StraddlesMidpoint(n: Network, s: State, i: nat, tolerance: real, top: nat)
    requires n.Valid() && |s.duals| == |n.us| && UnitGrid(n.grid, top) && Straddles(n, s, i, tolerance)
    ensures i < top && n.Next(s).z == i as real + 0.5
  {
  }

  /** Half a unit past i and short of the demand by at most half a step: the demand is next to it. */
  lemma HalfOff(d: real, i: nat, z: real)
    requires Whole(d) && z == i as real + 0.5
    requires JointCurve(d, d) - JointCurve(d, z) <= (if i as real < d then 78.0 else 19.0)
    ensures HalfUnitOff(d, z)
  {
    if i as real < d {
      WholeBelow(i as real, d);
    }
  }

  /**
   * On the unit grid with whole demand d, at any tolerance up to half a unit and from any start:
   * a stop is the optimum d exactly when its recorded residual is zero. Otherwise it is half a
   * unit off, 78 short when below and 19 short when above.
   */
  lemma StopIsDemandIff(d: real, grid: seq<real>, top: nat, z0: real, k: nat, tolerance: real)
    requires UnitGrid(grid, top) && Whole(d) && 0.0 <= d <= top as real && 0.0 <= tolerance <= 0.5
    requires Table(d, grid).Stops(Table(d, grid).At(z0, k), tolerance)
    ensures var n := Table(d, grid); var z := n.Next(n.At(z0, k)).z;
      && (z == d <==> n.PrimalResidual(n.At(z0, k)) == 0.0)
      && (z != d ==> HalfUnitOff(d, z))
  {
    hide Admm.Network.Total, Admm.Network.At, Admm.Network.Next, Admm.Network.PrimalResidual, Admm.Network.Stops, Regular, LinearBetween, JointCurve;
    var n := Table(d, grid);
    var s := n.At(z0, k);
    var z := n.Next(s).z;
    ShippedIsRegular(d, grid, top, tolerance);
    n.DualsSumToZero(z0, k);
    var i := StopIsOptimalIff(n, s, tolerance);
    assert grid[d.Floor] == d;
    JointOf(d, grid, d);
    JointOf(d, grid, z);
    forall x | 0 <= x < |grid|
      ensures n.Total(grid[x]) <= n.Total(d)
    {
      JointOf(d, grid, grid[x]);
      DemandIsPeak(d, grid[x]);
    }
    if n.PrimalResidual(s) == 0.0 {
      assert n.Total(d) <= n.Total(z);
      DemandIsPeak(d, z);
    } else {
      assert z == i as real + 0.5 by { StraddlesMidpoint(n, s, i, tolerance, top); }
      JointRise(d, grid, top, i);
      n.ValueAt(i);
      n.ValueAt(i + 1);
      HalfOff(d, i, z);
    }
  }
}
