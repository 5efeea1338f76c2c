/** ADMM consensus over any number of participants on a shared quantity grid. */
module Admm {
  import opened Numeric
  import opened Grids
  import opened Concave
  import C = ConsensusAveraging

  /** The consensus and the dual prices carried from round to round. */
  datatype State = State(z: real, duals: seq<real>)

  datatype Record = Record(quantities: seq<real>, consensus: real, residual: real, priceSignal: real)

  datatype Convergence = Converged | Oscillating | NotConverged

  lemma MeanTimes(qs: seq<real>)
    requires |qs| > 0
    ensures Sum(qs) == Mean(qs) * |qs| as real
  {
    DivMul(Sum(qs), |qs| as real);
  }

  lemma SumsOrdered(a: seq<real>, b: seq<real>)
    requires |a| == |b| && forall p :: 0 <= p < |a| ==> a[p] <= b[p]
    ensures Sum(a) <= Sum(b)
  {
    SumMonotone(a, b, |a|);
  }

  function SpreadOf(chosen: seq<real>, w: seq<real>, priced: seq<real>, moved: seq<real>, shift: real): (r: seq<real>)
    requires |chosen| == |w| == |priced| == |moved|
    ensures |r| == |chosen|
  {
    seq(|chosen|, p requires 0 <= p < |chosen| => chosen[p] - w[p] - priced[p] - moved[p] + shift)
  }

  lemma ShiftCancels(e: real, v: real, h: real, m: real)
    ensures (e * v - h) * m - e * (v * m) == -(h * m)
  {
  }

  lemma SpreadTotal(chosen: seq<real>, w: seq<real>, duals: seq<real>, qs: seq<real>, v: real, e: real, h: real, shift: real)
    requires |chosen| == |w| == |duals| == |qs| && shift == e * v - h
    requires Sum(duals) == 0.0 && Sum(qs) == v * |qs| as real
    ensures Sum(SpreadOf(chosen, w, Multiplied(v, duals), Multiplied(e, qs), shift)) == Sum(chosen) - Sum(w) - h * |qs| as real
  {
    hide SumTo, Multiplied;
    SumOfParts(SpreadOf(chosen, w, Multiplied(v, duals), Multiplied(e, qs), shift), chosen, w, Multiplied(v, duals), Multiplied(e, qs), shift, |qs|);
    SumMultiplied(v, duals);
    SumMultiplied(e, qs);
    ShiftCancels(e, v, h, |qs| as real);
  }

  /** Charging for the distance from v, and pulling along it, both split at v. */
  lemma ChargeSplits(lam: real, q: real, v: real, rho: real, e: real, drift: real,
                     charge: real, priced: real, moved: real, owed: real, pull: real, shift: real)
    requires drift == rho * e && charge == lam * (q - v) && priced == v * lam && moved == drift * q
    requires owed == lam * q && pull == rho * ((q - v) * e) && shift == drift * v
    ensures owed == charge + priced && pull == moved - shift
  {
    assert pull == drift * (q - v);
  }

  lemma ChargeBound(lam: real, d: real, r: real)
    requires Abs(d) <= r
    ensures -(r * Abs(lam)) <= lam * d
  {
    AbsScale(lam, d, lam * d);
    MulMonotone(Abs(d), r, Abs(lam));
    assert Abs(d) * Abs(lam) == Abs(lam) * Abs(d);
  }

  lemma ChargesTotal(w: seq<real>, sizes: seq<real>, r: real)
    requires |w| == |sizes| && forall p :: 0 <= p < |w| ==> -(r * sizes[p]) <= w[p]
    ensures -Sum(w) <= r * Sum(sizes)
  {
    var low := seq(|w|, p requires 0 <= p < |w| => -(r * sizes[p]));
    SumMonotone(low, w, |w|);
    SumLinear(low, -r, sizes, 0.0, sizes, 0.0, |w|);
    assert (-r) * Sum(sizes) == -(r * Sum(sizes));
  }

  /** The residuals of the last five records, or of all if they are fewer. */
  function LastResiduals(records: seq<Record>): (r: seq<real>)
    ensures |r| == if |records| < 5 then |records| else 5
    ensures forall i :: 0 <= i < |r| ==> r[i] == records[|records| - |r| + i].residual
  {
    var n := if |records| < 5 then |records| else 5;
    seq(n, i requires 0 <= i < n => records[|records| - n + i].residual)
  }

  /** Their spread is under tolerance while some of them is above it. */
  predicate LastResidualsFlat(records: seq<Record>, tolerance: real) {
    var recent := LastResiduals(records);
    && (forall x, y :: x in recent && y in recent ==> x - y < tolerance)
    && (exists x :: x in recent && x > tolerance)
  }

  /** The largest and the smallest of some values. */
  ghost predicate IsLargest(m: real, values: seq<real>) {
    m in values && forall x :: x in values ==> x <= m
  }

  ghost predicate IsSmallest(m: real, values: seq<real>) {
    m in values && forall x :: x in values ==> m <= x
  }

  lemma {:induction false} ExtremesExist(values: seq<real>) returns (largest: real, smallest: real)
    requires |values| > 0
    ensures IsLargest(largest, values) && IsSmallest(smallest, values)
  {
    var n := |values| - 1;
    if n == 0 {
      largest, smallest := values[0], values[0];
    } else {
      var hi, lo := ExtremesExist(values[..n]);
      assert values == values[..n] + [values[n]];
      largest, smallest := Max(hi, values[n]), Min(lo, values[n]);
    }
  }

  /** A run that does not converge oscillates exactly when the largest of those residuals is above the tolerance and the smallest within it of the largest. */
  lemma FlatIff(records: seq<Record>, tolerance: real, largest: real, smallest: real)
    requires IsLargest(largest, LastResiduals(records)) && IsSmallest(smallest, LastResiduals(records))
    ensures LastResidualsFlat(records, tolerance) <==> largest - smallest < tolerance && largest > tolerance
  {
  }

  datatype Network = Network(grid: seq<real>, us: seq<Utility>, rho: real) {

    ghost predicate Valid() {
      |grid| > 0 && |us| >= 2
    }

    /** The augmented Lagrangian each participant maximizes. */
    function Lagrangian(u: Utility, lam: real, z: real): Utility {
      q => u(q) - lam * q - 0.5 * rho * ((q - z) * (q - z))
    }

    function Reply(p: nat, s: State): real
      requires |grid| > 0 && p < |us| && p < |s.duals|
    {
      grid[FirstMax(grid, Lagrangian(us[p], s.duals[p], s.z))]
    }

    function Replies(s: State): (qs: seq<real>)
      requires |grid| > 0 && |s.duals| == |us|
      ensures |qs| == |us|
    {
      seq(|us|, p requires 0 <= p < |us| => Reply(p, s))
    }

    function Reprice(duals: seq<real>, qs: seq<real>, z: real): (r: seq<real>)
      requires |duals| == |qs|
      ensures |r| == |duals|
    {
      seq(|duals|, p requires 0 <= p < |duals| => duals[p] + rho * (qs[p] - z))
    }

    function Next(s: State): (t: State)
      requires Valid() && |s.duals| == |us|
      ensures |t.duals| == |us|
    {
      var qs := Replies(s);
      State(Mean(qs), Reprice(s.duals, qs, Mean(qs)))
    }

    /** The state after k rounds from consensus z0 with all duals zero. */
    function At(z0: real, k: nat): (s: State)
      requires Valid()
      ensures |s.duals| == |us|
    {
      if k == 0 then State(z0, seq(|us|, p => 0.0)) else Next(At(z0, k - 1))
    }

    function PrimalResidual(s: State): real
      requires Valid() && |s.duals| == |us|
    {
      C.Residual(Replies(s), Next(s).z)
    }

    function DualResidual(s: State): real
      requires Valid() && |s.duals| == |us|
    {
      rho * Abs(Next(s).z - s.z)
    }

    function RecordOf(s: State): Record
      requires Valid() && |s.duals| == |us|
    {
      Record(Replies(s), Next(s).z, PrimalResidual(s), Mean(Next(s).duals))
    }

    function Trace(z0: real, k: nat): (records: seq<Record>)
      requires Valid()
      ensures |records| == k
    {
      if k == 0 then [] else Trace(z0, k - 1) + [RecordOf(At(z0, k - 1))]
    }

    ghost predicate Stops(s: State, tolerance: real)
      requires Valid() && |s.duals| == |us|
    {
      PrimalResidual(s) <= tolerance && DualResidual(s) <= tolerance
    }

    method SolveSubproblems(s: State) returns (qs: seq<real>)
      requires Valid() && |s.duals| == |us|
      ensures qs == Replies(s)
    {
      hide FirstMax, FirstMaxTo;
      qs := [];
      for p := 0 to |us|
        invariant qs == Replies(s)[..p]
      {
        var best := Argmax(grid, Lagrangian(us[p], s.duals[p], s.z));
        qs := qs + [best];
      }
    }

    method UpdateDuals(duals: seq<real>, qs: seq<real>, z: real) returns (r: seq<real>)
      requires |duals| == |qs|
      ensures r == Reprice(duals, qs, z)
    {
      r := duals;
      for p := 0 to |qs|
        invariant |r| == |duals|
        invariant forall k :: 0 <= k < p ==> r[k] == Reprice(duals, qs, z)[k]
        invariant forall k :: p <= k < |r| ==> r[k] == duals[k]
      {
        r := r[p := r[p] + rho * (qs[p] - z)];
      }
    }

    method Round(s: State) returns (t: State, record: Record, dualResidual: real)
      requires Valid() && |s.duals| == |us|
      ensures t == Next(s) && record == RecordOf(s) && dualResidual == DualResidual(s)
    {
      hide Replies, Mean, C.Residual;
      var qs := SolveSubproblems(s);
      var newZ := Mean(qs);
      var residual := C.ComputeResidual(qs, newZ);
      dualResidual := rho * Abs(newZ - s.z);
      var duals := UpdateDuals(s.duals, qs, newZ);
      t := State(newZ, duals);
      record := Record(qs, newZ, residual, Mean(duals));
    }

    lemma RecordResidual(s: State)
      requires Valid() && |s.duals| == |us|
      ensures RecordOf(s).residual == PrimalResidual(s)
    {
    }

    method Run(z0: real, maxIter: nat, tolerance: real) returns (records: seq<Record>, convergence: Convergence)
      requires Valid() && maxIter > 0
      ensures 0 < |records| <= maxIter && records == Trace(z0, |records|)
      ensures convergence.Converged? <==> Stops(At(z0, |records| - 1), tolerance)
      ensures forall k :: 0 <= k < |records| - 1 ==> !Stops(At(z0, k), tolerance)
      ensures !convergence.Converged? ==> |records| == maxIter
      ensures convergence.Oscillating? <==> !convergence.Converged? && LastResidualsFlat(records, tolerance)
    {
      hide Next, RecordOf, DualResidual, PrimalResidual;
      var s := State(z0, seq(|us|, p => 0.0));
      records := [];
      for it := 0 to maxIter
        invariant s == At(z0, it) && records == Trace(z0, it) && |records| == it
        invariant forall k :: 0 <= k < it ==> !Stops(At(z0, k), tolerance)
      {
        var t, record, dualResidual := Round(s);
        RecordResidual(s);
        records := records + [record];
        if record.residual <= tolerance && dualResidual <= tolerance {
          return records, Converged;
        }
        s := t;
      }
      if LastResidualsFlat(records, tolerance) {
        convergence := Oscillating;
      } else {
        convergence := NotConverged;
      }
    }

    // ---- the duals cancel

    lemma RepriceKeepsSum(duals: seq<real>, qs: seq<real>)
      requires |duals| == |qs| && |qs| > 0
      ensures Sum(Reprice(duals, qs, Mean(qs))) == Sum(duals)
    {
      var z, n := Mean(qs), |qs| as real;
      var shift := -(rho * z);
      var r := Reprice(duals, qs, z);
      forall i | 0 <= i < |qs|
        ensures r[i] == 1.0 * duals[i] + rho * qs[i] + shift
      {
      }
      SumLinear(r, 1.0, duals, rho, qs, shift, |qs|);
      DivMul(Sum(qs), n);
      var a, b := Sum(qs), rho * z;
      assert a == z * n;
      assert rho * a == b * n;
      assert shift * n == -(b * n);
    }

    /** After every round, for any number of participants, the dual prices sum to zero. */
    lemma {:induction false} DualsSumToZero(z0: real, k: nat)
      requires Valid()
      ensures Sum(At(z0, k).duals) == 0.0
    {
      if k == 0 {
        SumConstant(At(z0, 0).duals, 0.0, |us|);
      } else {
        hide Replies, Reprice;
        DualsSumToZero(z0, k - 1);
        RepriceKeepsSum(At(z0, k - 1).duals, Replies(At(z0, k - 1)));
      }
    }

    /** So the price signal in every record of every run is exactly zero. */
    lemma PriceSignalIsZero(z0: real, k: nat)
      requires Valid()
      ensures RecordOf(At(z0, k)).priceSignal == 0.0
    {
      hide Next;
      DualsSumToZero(z0, k + 1);
      assert Next(At(z0, k)) == At(z0, k + 1);
    }

    // ---- joint optimality at a stop, from any state whose duals cancel, as every reached state's do

    ghost predicate Balanced(s: State) {
      |s.duals| == |us| && Sum(s.duals) == 0.0
    }

    function Utilities(x: real): (r: seq<real>)
      ensures |r| == |us|
    {
      seq(|us|, p requires 0 <= p < |us| => us[p](x))
    }

    function Total(x: real): real {
      Sum(Utilities(x))
    }

    function Half(d: real): real {
      0.5 * rho * (d * d)
    }

    /** The same amount for every participant. */
    function Crowd(h: real): real {
      h * |us| as real
    }

    /** Participant p's augmented utility: what its subproblem maximizes. */
    function Worth(p: nat, s: State, x: real): real
      requires |s.duals| == |us| && p < |us|
    {
      us[p](x) - s.duals[p] * x - Half(x - s.z)
    }

    function Augmented(s: State, x: real): (r: seq<real>)
      requires |s.duals| == |us|
      ensures |r| == |us|
    {
      seq(|us|, p requires 0 <= p < |us| => Worth(p, s, x))
    }

    lemma AugmentedSum(s: State, x: real)
      requires |s.duals| == |us| && Sum(s.duals) == 0.0
      ensures Sum(Augmented(s, x)) == Total(x) - Crowd(Half(x - s.z))
    {
      hide Half;
      var h := Half(x - s.z);
      var r, u := Augmented(s, x), Utilities(x);
      forall i | 0 <= i < |us|
        ensures r[i] == 1.0 * u[i] + (-x) * s.duals[i] + (-h)
      {
      }
      SumLinear(r, 1.0, u, -x, s.duals, -h, |us|);
    }

    lemma LagrangianIsWorth(p: nat, s: State, x: real)
      requires |s.duals| == |us| && p < |us|
      ensures Lagrangian(us[p], s.duals[p], s.z)(x) == Worth(p, s, x)
    {
    }

    lemma ReplyIsBest(p: nat, s: State, x: real)
      requires Valid() && |s.duals| == |us| && p < |us| && x in grid
      ensures Reply(p, s) in grid && Worth(p, s, x) <= Worth(p, s, Reply(p, s))
    {
      hide FirstMax, FirstMaxTo, Lagrangian, Worth;
      var f := Lagrangian(us[p], s.duals[p], s.z);
      FirstMaxIsFirst(grid, f);
      var i :| 0 <= i < |grid| && grid[i] == x;
      var y := grid[i];
      assert f(y) <= f(grid[FirstMax(grid, f)]);
      LagrangianIsWorth(p, s, y);
      LagrangianIsWorth(p, s, Reply(p, s));
    }

    /** On an ascending grid, the reply is the one quantity that beats smaller ones strictly and larger ones weakly. */
    lemma ReplyIsFirst(p: nat, s: State, q: real)
      requires Valid() && |s.duals| == |us| && p < |us| && Ascending(grid) && q in grid
      requires forall x :: x in grid ==> Worth(p, s, x) <= Worth(p, s, q) && (x < q ==> Worth(p, s, x) < Worth(p, s, q))
      ensures Reply(p, s) == q
    {
      hide FirstMax, FirstMaxTo, Lagrangian, Worth;
      var f := Lagrangian(us[p], s.duals[p], s.z);
      FirstMaxIsFirst(grid, f);
      var i, j :| 0 <= i < |grid| && grid[i] == q && j == FirstMax(grid, f);
      var x, r := grid[i], grid[j];
      LagrangianIsWorth(p, s, x);
      LagrangianIsWorth(p, s, r);
      assert f(x) <= f(r) && (i < j ==> f(x) < f(r));
      assert r in grid;
    }

    lemma SquareExpands(d: real, e: real)
      ensures Half(d + e) == Half(d) + Half(e) + rho * (d * e)
    {
      assert (d + e) * (d + e) == d * d + e * e + 2.0 * (d * e);
    }

    lemma CrossTerm(d: real, e: real, tolerance: real)
      requires rho >= 0.0 && rho * Abs(e) <= tolerance
      ensures rho * (d * e) <= tolerance * Abs(d)
    {
      var m, ad, ae := rho * Abs(e), Abs(d), Abs(e);
      MulMonotone(m, tolerance, ad);
      assert m * ad == rho * (ad * ae);
      AbsScale(d, e, d * e);
      MulMonotone(d * e, ad * ae, rho);
    }

    /** What moving by d can gain a participant around a stopped consensus. */
    function Reach(d: real, tolerance: real): real {
      Half(d) + tolerance * Abs(d)
    }

    lemma HalfGap(x: real, v: real, z: real, tolerance: real)
      requires rho >= 0.0 && rho * Abs(v - z) <= tolerance
      ensures Half(x - z) - Half(v - z) <= Reach(x - v, tolerance)
    {
      hide Half;
      var d, e := x - v, v - z;
      SquareExpands(d, e);
      assert d + e == x - z;
      CrossTerm(d, e, tolerance);
    }

    lemma CrowdMonotone(a: real, b: real)
      requires a <= b
      ensures Crowd(a) <= Crowd(b)
    {
      MulMonotone(a, b, |us| as real);
    }

    /** How far a stopped run can be from any grid quantity's joint utility. */
    function Slack(distance: real, tolerance: real): real {
      Crowd(Half(distance) + tolerance * distance)
    }

    lemma SlackOf(d: real, tolerance: real)
      ensures Slack(Abs(d), tolerance) == Crowd(Reach(d, tolerance))
    {
      assert Abs(d) * Abs(d) == d * d;
      assert Half(Abs(d)) == Half(d);
    }

    lemma SlackNonNegative(distance: real, tolerance: real)
      requires rho >= 0.0 && tolerance >= 0.0 && distance >= 0.0
      ensures Slack(distance, tolerance) >= 0.0
    {
      assert tolerance * distance >= 0.0 && distance * distance >= 0.0;
      assert Half(distance) >= 0.0 by { MulMonotone(0.0, distance * distance, 0.5 * rho); }
      CrowdMonotone(0.0, Half(distance) + tolerance * distance);
    }

    /** Every participant's utility at the quantity it chose itself. */
    function Chosen(s: State): (r: seq<real>)
      requires |grid| > 0 && |s.duals| == |us|
      ensures |r| == |us|
    {
      seq(|us|, p requires 0 <= p < |us| => us[p](Reply(p, s)))
    }

    /** What each dual price charges for the participant's distance from the consensus. */
    function Charges(s: State, v: real): (r: seq<real>)
      requires |grid| > 0 && |s.duals| == |us|
      ensures |r| == |us|
    {
      seq(|us|, p requires 0 <= p < |us| => s.duals[p] * (Reply(p, s) - v))
    }

    function Sizes(duals: seq<real>): (r: seq<real>)
      ensures |r| == |duals|
    {
      seq(|duals|, p requires 0 <= p < |duals| => Abs(duals[p]))
    }

    /** The total size of the dual prices. */
    function DualSize(s: State): real {
      Sum(Sizes(s.duals))
    }

    /** How hard the proximal term still pulls back towards the previous consensus. */
    function Drift(s: State, v: real): real {
      rho * (v - s.z)
    }

    function Shift(s: State, v: real): real {
      Drift(s, v) * v - Half(v - s.z)
    }

    /** Upper bounds on the participants' augmented utilities anywhere, spread linearly around v. */
    function Spread(s: State, v: real): (r: seq<real>)
      requires |grid| > 0 && |s.duals| == |us|
      ensures |r| == |us|
    {
      var e := Drift(s, v);
      SpreadOf(Chosen(s), Charges(s, v), Multiplied(v, s.duals), Multiplied(e, Replies(s)), Shift(s, v))
    }

    lemma WorthIs(p: nat, s: State, q: real, owed: real)
      requires |s.duals| == |us| && p < |us| && owed == s.duals[p] * q
      ensures Worth(p, s, q) == us[p](q) - owed - Half(q - s.z)
    {
    }

    lemma DriftIs(s: State, v: real)
      ensures Drift(s, v) == rho * (v - s.z)
    {
    }

    lemma ShiftIs(s: State, v: real, shift: real)
      requires shift == Drift(s, v) * v
      ensures Shift(s, v) == shift - Half(v - s.z)
    {
    }

    lemma HalfNonNegative(d: real)
      requires rho >= 0.0
      ensures Half(d) >= 0.0
    {
      assert d * d >= 0.0;
      MulMonotone(0.0, d * d, 0.5 * rho);
    }

    lemma WorthSpreads(s: State, v: real, p: nat, q: real, charge: real, priced: real, moved: real)
      requires |s.duals| == |us| && p < |us| && rho >= 0.0
      requires charge == s.duals[p] * (q - v) && priced == v * s.duals[p] && moved == Drift(s, v) * q
      ensures Worth(p, s, q) <= us[p](q) - charge - priced - moved + Shift(s, v)
    {
      hide Half, Worth, Shift, Drift;
      var lam, d, e, drift := s.duals[p], q - v, v - s.z, Drift(s, v);
      SquareExpands(d, e);
      assert d + e == q - s.z;
      assert Half(q - s.z) == Half(d + e);
      HalfNonNegative(d);
      var owed, pull, shift := lam * q, rho * (d * e), drift * v;
      DriftIs(s, v);
      ChargeSplits(lam, q, v, rho, e, drift, charge, priced, moved, owed, pull, shift);
      WorthIs(p, s, q, owed);
      ShiftIs(s, v, shift);
    }

    lemma SpreadBounds(s: State, v: real, p: nat, x: real)
      requires Valid() && |s.duals| == |us| && p < |us| && x in grid && rho >= 0.0
      ensures Augmented(s, x)[p] <= Spread(s, v)[p]
    {
      hide Reply, Half, Worth, Shift, Drift;
      ReplyIsBest(p, s, x);
      var charge, priced, moved := Charges(s, v)[p], Multiplied(v, s.duals)[p], Multiplied(Drift(s, v), Replies(s))[p];
      WorthSpreads(s, v, p, Reply(p, s), charge, priced, moved);
      assert Augmented(s, x)[p] == Worth(p, s, x);
      assert Spread(s, v)[p] == us[p](Reply(p, s)) - charge - priced - moved + Shift(s, v);
    }

    lemma SpreadSum(s: State, v: real)
      requires Valid() && |s.duals| == |us| && Sum(s.duals) == 0.0 && v == Mean(Replies(s))
      ensures Sum(Spread(s, v)) == Sum(Chosen(s)) - Sum(Charges(s, v)) - Crowd(Half(v - s.z))
    {
      hide Half, Sum, Mean, Charges, Chosen, Replies, Multiplied, SpreadOf, Drift, Shift;
      var qs, h := Replies(s), Half(v - s.z);
      MeanTimes(qs);
      assert Sum(qs) == v * |qs| as real;
      ShiftIs(s, v, Drift(s, v) * v);
      SpreadTotal(Chosen(s), Charges(s, v), s.duals, qs, v, Drift(s, v), h, Shift(s, v));
      assert Crowd(h) == h * |qs| as real;
    }

    /** What disagreement can be worth: the recorded residual times the total size of the duals. */
    function Discord(s: State): real
      requires Valid() && |s.duals| == |us|
    {
      PrimalResidual(s) * DualSize(s)
    }

    lemma ReplyWithin(s: State, p: nat)
      requires Valid() && |s.duals| == |us| && p < |us|
      ensures Abs(Reply(p, s) - Next(s).z) <= PrimalResidual(s)
    {
      hide FirstMax, Mean;
      var away := C.Away(Replies(s), Next(s).z);
      MaxAbsIsLargest(away, |away|);
      assert away[p] == Reply(p, s) - Next(s).z;
    }

    lemma ChargesBounded(s: State, v: real)
      requires Valid() && |s.duals| == |us| && v == Next(s).z
      ensures -Sum(Charges(s, v)) <= Discord(s)
    {
      hide Reply, Next, Sum, PrimalResidual;
      var r, w, sizes := PrimalResidual(s), Charges(s, v), Sizes(s.duals);
      forall p | 0 <= p < |us|
        ensures -(r * sizes[p]) <= w[p]
      {
        ReplyWithin(s, p);
        ChargeBound(s.duals[p], Reply(p, s) - v, r);
      }
      ChargesTotal(w, sizes, r);
    }

    lemma CrowdDifference(a: real, b: real)
      ensures Crowd(a - b) == Crowd(a) - Crowd(b)
    {
    }

    lemma ProximalCap(x: real, v: real, z: real, tolerance: real)
      requires rho >= 0.0 && rho * Abs(v - z) <= tolerance
      ensures Crowd(Half(x - z)) - Crowd(Half(v - z)) <= Slack(Abs(x - v), tolerance)
    {
      hide Half, Crowd, Slack, Reach;
      var hx, hv := Half(x - z), Half(v - z);
      HalfGap(x, v, z, tolerance);
      CrowdMonotone(hx - hv, Reach(x - v, tolerance));
      CrowdDifference(hx, hv);
      SlackOf(x - v, tolerance);
    }

    lemma NextIsMean(s: State)
      requires Valid() && |s.duals| == |us|
      ensures Next(s).z == Mean(Replies(s))
    {
    }

    lemma StopFacts(s: State, tolerance: real)
      requires Valid() && |s.duals| == |us| && Stops(s, tolerance)
      ensures PrimalResidual(s) <= tolerance && rho * Abs(Next(s).z - s.z) <= tolerance
    {
    }

    /**
     * At any stop on any grid with rho >= 0, no grid quantity beats what the participants chose
     * themselves by more than N*rho/2*d*d + N*tolerance*d at distance d from the consensus, plus
     * the recorded residual times the total size of the duals.
     */
    lemma StopIsNearOptimal(s: State, tolerance: real, i: nat)
      requires Valid() && rho >= 0.0 && i < |grid|
      requires Balanced(s) && Stops(s, tolerance)
      ensures var v := Next(s).z;
        Total(grid[i]) - Sum(Chosen(s)) <= Slack(Abs(grid[i] - v), tolerance) + Discord(s)
    {
      hide Half, Total, Slack, Abs, Crowd, Chosen, Charges, Discord, Augmented, Spread, Sum, Reply, Next, Mean, PrimalResidual, Stops;
      var v, x := Next(s).z, grid[i];
      NextIsMean(s);
      StopFacts(s, tolerance);
      forall p | 0 <= p < |us|
        ensures Augmented(s, x)[p] <= Spread(s, v)[p]
      {
        SpreadBounds(s, v, p, x);
      }
      SumsOrdered(Augmented(s, x), Spread(s, v));
      AugmentedSum(s, x);
      SpreadSum(s, v);
      ChargesBounded(s, v);
      ProximalCap(x, v, s.z, tolerance);
      assert Total(x) - Sum(Chosen(s)) <= Slack(Abs(x - v), tolerance) - Sum(Charges(s, v));
    }

    // ---- stops that agree

    ghost predicate Agree(s: State, v: real)
      requires |grid| > 0 && |s.duals| == |us|
    {
      forall p :: 0 <= p < |us| ==> Reply(p, s) == v
    }

    /** A recorded residual of zero says that everyone chose the consensus, a grid quantity. */
    lemma NoResidualIffAgree(s: State)
      requires Valid() && |s.duals| == |us|
      ensures PrimalResidual(s) == 0.0 <==> Agree(s, Next(s).z)
      ensures PrimalResidual(s) == 0.0 ==> Next(s).z in grid && Sum(Chosen(s)) == Total(Next(s).z)
    {
      hide Mean, Sum, FirstMax;
      var qs, z := Replies(s), Next(s).z;
      var d := C.Away(qs, z);
      MaxAbsIsLargest(d, |d|);
      assert forall p :: 0 <= p < |us| ==> d[p] == Reply(p, s) - z;
      if PrimalResidual(s) == 0.0 {
        forall p | 0 <= p < |us|
          ensures Reply(p, s) == z
        {
          assert Abs(d[p]) <= 0.0;
        }
        assert Reply(0, s) in grid;
        assert Chosen(s) == Utilities(z);
      }
    }

    lemma MeanOfConstant(qs: seq<real>, v: real)
      requires |qs| > 0 && forall p :: 0 <= p < |qs| ==> qs[p] == v
      ensures Mean(qs) == v
    {
      SumConstant(qs, v, |qs|);
      assert v * |qs| as real / |qs| as real == v;
    }

    /** On a grid whose points are more than two tolerances apart, every stop agrees exactly. */
    lemma StopIsAgreement(s: State, tolerance: real)
      requires Valid() && |s.duals| == |us|
      requires PrimalResidual(s) <= tolerance
      requires forall i, j :: 0 <= i < |grid| && 0 <= j < |grid| && grid[i] != grid[j] ==> Abs(grid[i] - grid[j]) > 2.0 * tolerance
      ensures PrimalResidual(s) == 0.0 && Agree(s, Next(s).z) && Next(s).z in grid
    {
      hide Mean, FirstMax;
      var qs, z := Replies(s), Next(s).z;
      var d := C.Away(qs, z);
      MaxAbsIsLargest(d, |d|);
      forall p | 0 <= p < |us|
        ensures qs[p] == qs[0]
      {
        assert Abs(d[p]) <= tolerance && Abs(d[0]) <= tolerance;
        var i, j := FirstMax(grid, Lagrangian(us[p], s.duals[p], s.z)), FirstMax(grid, Lagrangian(us[0], s.duals[0], s.z));
        assert qs[p] == grid[i] && qs[0] == grid[j];
      }
      MeanOfConstant(qs, qs[0]);
      forall p | 0 <= p < |us|
        ensures Reply(p, s) == z
      {
        assert qs[p] == Reply(p, s);
      }
      NoResidualIffAgree(s);
    }

    /** The joint utilities along the grid. */
    function Values(): (r: seq<real>)
      ensures |r| == |grid|
    {
      seq(|grid|, k requires 0 <= k < |grid| => Total(grid[k]))
    }

    /** Every step along the grid changes the joint utility by nothing, or by more than the slack of its width. */
    ghost predicate SteepOrFlat(tolerance: real) {
      forall k: nat {:trigger Rise(Values(), k)} :: k + 1 < |grid| ==>
        Rise(Values(), k) == 0.0 || Abs(Rise(Values(), k)) > Slack(grid[k + 1] - grid[k], tolerance)
    }

    /** No step of the grid is wider. */
    ghost predicate NoWiderThan(width: real) {
      forall k: nat {:trigger Rise(grid, k)} :: k + 1 < |grid| ==> Rise(grid, k) <= width
    }

    lemma StepWidth(width: real, k: nat)
      requires Ascending(grid) && NoWiderThan(width) && k + 1 < |grid|
      ensures 0.0 < grid[k + 1] - grid[k] <= width
    {
      assert Rise(grid, k) <= width;
    }

    lemma ValueAt(k: nat)
      requires k < |grid|
      ensures Values()[k] == Total(grid[k])
    {
    }

    lemma SlackPerUnit(d: real, width: real, tolerance: real)
      requires rho >= 0.0 && 0.0 <= d <= width
      ensures Slack(d, tolerance) <= Crowd(0.5 * rho * width + tolerance) * d
    {
      var n, h := |us| as real, 0.5 * rho;
      MulMonotone(h * d, h * width, d) by { MulMonotone(d, width, h); }
      var a, b := h * (d * d) + tolerance * d, (h * width + tolerance) * d;
      assert h * d * d == h * (d * d);
      CrowdMonotone(a, b);
      assert b * n == (h * width + tolerance) * n * d;
    }

    lemma AgreedGain(s: State, tolerance: real, width: real, j: nat, x: nat)
      requires Valid() && rho >= 0.0 && j < |grid| && x < |grid| && Abs(grid[x] - grid[j]) <= width
      requires Balanced(s) && Stops(s, tolerance) && PrimalResidual(s) == 0.0 && Next(s).z == grid[j]
      ensures Values()[x] - Values()[j] <= Slack(Abs(grid[x] - grid[j]), tolerance)
      ensures Values()[x] - Values()[j] <= Crowd(0.5 * rho * width + tolerance) * Abs(grid[x] - grid[j])
    {
      hide Next, Total, Slack, Crowd, Half, Stops, PrimalResidual, DualSize, Sum, Values;
      ValueAt(j);
      ValueAt(x);
      StopIsNearOptimal(s, tolerance, x);
      NoResidualIffAgree(s);
      assert Discord(s) == 0.0;
      SlackPerUnit(Abs(grid[x] - grid[j]), width, tolerance);
    }

    lemma SteepStep(tolerance: real, k: nat)
      requires SteepOrFlat(tolerance) && k + 1 < |grid|
      ensures Rise(Values(), k) == 0.0 || Abs(Rise(Values(), k)) > Slack(grid[k + 1] - grid[k], tolerance)
    {
    }

    lemma SteepStopIsBest(s: State, tolerance: real, width: real, j: nat, x: nat)
      requires Valid() && rho >= 0.0 && tolerance >= 0.0 && Ascending(grid) && j < |grid| && x < |grid|
      requires Balanced(s) && Stops(s, tolerance) && PrimalResidual(s) == 0.0 && Next(s).z == grid[j]
      requires ConcaveAlong(grid, Values()) && NoWiderThan(width) && SteepOrFlat(tolerance)
      ensures Values()[x] <= Values()[j]
    {
      hide Next, Total, Slack, Crowd, Half, ConcaveAlong, Stops, PrimalResidual, Values, SteepOrFlat, NoWiderThan;
      if j + 1 < |grid| {
        StepWidth(width, j);
        AgreedGain(s, tolerance, width, j, j + 1);
        SteepStep(tolerance, j);
      }
      if j > 0 {
        StepWidth(width, j - 1);
        AgreedGain(s, tolerance, width, j, j - 1);
        SteepStep(tolerance, j - 1);
      }
      NoNeighbourGain(grid, Values(), j, x);
    }

    /**
     * With joint utility concave along the grid, a run that stops with everyone at the grid
     * quantity j trails every grid quantity by at most N*(rho/2*width + tolerance) per unit, where
     * no step is wider than width, and not at all when every nonzero step exceeds its slack.
     */
    lemma ConcaveStopIsOptimal(s: State, tolerance: real, width: real, j: nat, x: nat)
      requires Valid() && rho >= 0.0 && tolerance >= 0.0 && Ascending(grid) && j < |grid| && x < |grid|
      requires Balanced(s) && Stops(s, tolerance) && PrimalResidual(s) == 0.0 && Next(s).z == grid[j]
      requires ConcaveAlong(grid, Values())
      requires NoWiderThan(width)
      ensures Total(grid[x]) - Total(grid[j]) <= Crowd(0.5 * rho * width + tolerance) * Abs(grid[x] - grid[j])
      ensures SteepOrFlat(tolerance) ==> Total(grid[x]) <= Total(grid[j])
    {
      hide Next, Total, Slack, Crowd, Half, ConcaveAlong, Stops, PrimalResidual, Values, SteepOrFlat, NoWiderThan;
      var v, rate := Values(), Crowd(0.5 * rho * width + tolerance);
      ValueAt(j);
      ValueAt(x);
      if j + 1 < |grid| {
        StepWidth(width, j);
        AgreedGain(s, tolerance, width, j, j + 1);
      }
      if j > 0 {
        StepWidth(width, j - 1);
        AgreedGain(s, tolerance, width, j, j - 1);
      }
      NeighboursBound(grid, v, j, x, rate, rate * Abs(grid[x] - grid[j]));
      if SteepOrFlat(tolerance) {
        SteepStopIsBest(s, tolerance, width, j, x);
      }
    }
  }
}
