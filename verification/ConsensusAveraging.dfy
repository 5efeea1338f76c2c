/** Consensus averaging: every round pulls the local ideals the same fraction toward their mean. */
module ConsensusAveraging {
  import opened Numeric
  import opened Grids

  datatype Record = Record(quantities: seq<real>, consensus: real, residual: real)

  function Pulled(ideals: seq<real>, inertia: real, consensus: real): (r: seq<real>)
    ensures |r| == |ideals|
  {
    seq(|ideals|, i requires 0 <= i < |ideals| => inertia * consensus + (1.0 - inertia) * ideals[i])
  }

  function Away(quantities: seq<real>, consensus: real): (r: seq<real>)
    ensures |r| == |quantities|
  {
    seq(|quantities|, i requires 0 <= i < |quantities| => quantities[i] - consensus)
  }

  /** `max(abs(q - consensus) for q in quantities.values())`. */
  function Residual(quantities: seq<real>, consensus: real): real {
    MaxAbs(Away(quantities, consensus), |quantities|)
  }

  method ComputeResidual(quantities: seq<real>, consensus: real) returns (residual: real)
    ensures residual == Residual(quantities, consensus)
  {
    residual := 0.0;
    for i := 0 to |quantities|
      invariant residual == MaxAbs(Away(quantities, consensus), i)
    {
      residual := Max(residual, Abs(quantities[i] - consensus));
    }
  }

  function Round(ideals: seq<real>, inertia: real, consensus: real): Record
    requires |ideals| > 0
  {
    var qs := Pulled(ideals, inertia, consensus);
    Record(qs, Mean(qs), Residual(qs, Mean(qs)))
  }

  /** The mean is where the pull leads: a round started at it stays there. */
  lemma RoundKeepsMean(ideals: seq<real>, inertia: real)
    requires |ideals| > 0
    ensures Round(ideals, inertia, Mean(ideals)).consensus == Mean(ideals)
  {
    var c, n := Mean(ideals), |ideals| as real;
    var qs := Pulled(ideals, inertia, c);
    SumLinear(qs, 1.0 - inertia, ideals, 0.0, ideals, inertia * c, |ideals|);
    DivMul(Sum(ideals), n);
    var a, s := inertia * c, Sum(ideals);
    assert Sum(qs) == (1.0 - inertia) * s + a * n;
    assert s == c * n;
    assert a * n == inertia * s;
    assert Sum(qs) == s;
  }

  lemma MaxStepScales(k: real, m: real, km: real, x: real, kx: real)
    requires km == Abs(k) * m && kx == k * x
    ensures Max(km, Abs(kx)) == Abs(k) * Max(m, Abs(x))
  {
    AbsScale(k, x, kx);
    MaxScale(Abs(k), m, Abs(x), km, Abs(kx));
  }

  lemma {:induction false} MaxAbsScales(r: seq<real>, s: seq<real>, k: real, n: nat)
    requires n <= |r| && n <= |s|
    requires forall i :: 0 <= i < n ==> r[i] == k * s[i]
    ensures MaxAbs(r, n) == Abs(k) * MaxAbs(s, n)
  {
    hide Max, Abs;
    if n > 0 {
      MaxAbsScales(r, s, k, n - 1);
      MaxStepScales(k, MaxAbs(s, n - 1), MaxAbs(r, n - 1), s[n - 1], r[n - 1]);
    }
  }

  lemma PullShrinks(ideal: real, inertia: real, c: real)
    ensures inertia * c + (1.0 - inertia) * ideal - c == (1.0 - inertia) * (ideal - c)
  {
  }

  /** Every round's residual is the starting disagreement shrunk by the complement of the inertia. */
  lemma RoundResidual(ideals: seq<real>, inertia: real)
    requires |ideals| > 0
    ensures Round(ideals, inertia, Mean(ideals)).residual
         == Abs(1.0 - inertia) * Residual(ideals, Mean(ideals))
  {
    hide Mean, MaxAbs, Abs;
    RoundKeepsMean(ideals, inertia);
    var c := Mean(ideals);
    var qs := Pulled(ideals, inertia, c);
    var r, s := Away(qs, c), Away(ideals, c);
    forall i | 0 <= i < |ideals|
      ensures r[i] == (1.0 - inertia) * s[i]
    {
      PullShrinks(ideals[i], inertia, c);
    }
    MaxAbsScales(r, s, 1.0 - inertia, |ideals|);
  }

  method Iterate(ideals: seq<real>, inertia: real, consensus: real) returns (record: Record)
    requires |ideals| > 0
    ensures record == Round(ideals, inertia, consensus)
  {
    var quantities := Pulled(ideals, inertia, consensus);
    var mean := Mean(quantities);
    var residual := ComputeResidual(quantities, mean);
    record := Record(quantities, mean, residual);
  }

  /** The first of the two local ideals, then the averaging loop. */
  method Run(grid: seq<real>, us: seq<Utility>, inertia: real, maxIter: nat, tolerance: real)
    returns (records: seq<Record>, converged: bool, ideals: seq<real>)
    requires |grid| > 0 && |us| == 2 && maxIter > 0
    ensures |ideals| == 2 && forall p :: 0 <= p < 2 ==> ideals[p] == grid[FirstMax(grid, us[p])]
    // every record is the first one again
    ensures forall t :: 0 <= t < |records| ==> records[t] == Round(ideals, inertia, Mean(ideals))
    // so the run converges at once or not at all, whatever maxIter is
    ensures converged <==> Round(ideals, inertia, Mean(ideals)).residual <= tolerance
    ensures |records| == if converged then 1 else maxIter
  {
    hide Round, FirstMaxTo;
    var ideal0 := Argmax(grid, us[0]);
    var ideal1 := Argmax(grid, us[1]);
    ideals := [ideal0, ideal1];
    var consensus := Mean(ideals);
    records, converged := [], false;
    for iteration := 0 to maxIter
      invariant consensus == Mean(ideals) && !converged
      invariant |records| == iteration
      invariant forall t :: 0 <= t < iteration ==> records[t] == Round(ideals, inertia, Mean(ideals))
      invariant iteration > 0 ==> Round(ideals, inertia, Mean(ideals)).residual > tolerance
    {
      var record := Iterate(ideals, inertia, consensus);
      RoundKeepsMean(ideals, inertia);
      consensus := record.consensus;
      records := records + [record];
      if record.residual <= tolerance {
        converged := true;
        break;
      }
    }
  }

  lemma TwoPointResidual(a: real, b: real)
    ensures Mean([a, b]) == (a + b) / 2.0
    ensures Residual([a, b], Mean([a, b])) == Abs(a - b) / 2.0
  {
    var s := [a, b];
    assert SumTo(s, 1) == a;
    assert Sum(s) == a + b;
    var d := Away(s, Mean(s));
    assert d[0] == (a - b) / 2.0 && d[1] == (b - a) / 2.0;
    assert MaxAbs(d, 1) == Abs(d[0]);
    assert MaxAbs(d, 2) == Max(Abs(d[0]), Abs(d[1]));
  }

  /**
   * For two participants the run converges exactly when the shrunken half-distance between
   * the two ideals already meets the tolerance.
   */
  lemma ConvergesIff(ideal0: real, ideal1: real, inertia: real, tolerance: real)
    ensures var ideals := [ideal0, ideal1];
            Round(ideals, inertia, Mean(ideals)).residual <= tolerance
            <==> Abs(1.0 - inertia) * (Abs(ideal0 - ideal1) / 2.0) <= tolerance
  {
    hide Round, Abs, Mean, Residual;
    var ideals := [ideal0, ideal1];
    RoundResidual(ideals, inertia);
    TwoPointResidual(ideal0, ideal1);
  }
}
