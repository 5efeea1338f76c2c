/** Values concave along an ascending grid: what happens next to a point decides what happens far away. */
module Concave {
  import opened Numeric
  import opened Grids

  function Rise(v: seq<real>, k: nat): real
    requires k + 1 < |v|
  {
    v[k + 1] - v[k]
  }

  /** The slope of v between grid points k and k + 1. */
  function Slope(g: seq<real>, v: seq<real>, k: nat): real
    requires |v| == |g| && k + 1 < |g| && Ascending(g)
  {
    Rise(v, k) / (g[k + 1] - g[k])
  }

  /** The slope out of k is at most the slope into it. */
  ghost predicate SlopeFalls(g: seq<real>, v: seq<real>, k: nat)
    requires |v| == |g| && 0 < k && k + 1 < |g| && Ascending(g)
  {
    Slope(g, v, k) <= Slope(g, v, k - 1)
  }

  ghost predicate ConcaveAlong(g: seq<real>, v: seq<real>)
    requires |v| == |g| && Ascending(g)
  {
    forall k: nat :: 0 < k && k + 1 < |g| ==> SlopeFalls(g, v, k)
  }

  /** A step gains its slope times its width. */
  lemma StepGain(g: seq<real>, v: seq<real>, k: nat)
    requires |v| == |g| && k + 1 < |g| && Ascending(g)
    ensures v[k + 1] - v[k] == Slope(g, v, k) * (g[k + 1] - g[k])
  {
    DivMul(v[k + 1] - v[k], g[k + 1] - g[k]);
  }

  /** Slopes are ordered the way gains per width are. */
  lemma SlopeAtMost(g: seq<real>, v: seq<real>, k: nat, bound: real, cap: real)
    requires |v| == |g| && k + 1 < |g| && Ascending(g)
    requires cap == bound * (g[k + 1] - g[k])
    ensures Slope(g, v, k) <= bound <==> v[k + 1] - v[k] <= cap
    ensures Slope(g, v, k) >= bound <==> v[k + 1] - v[k] >= cap
  {
    StepGain(g, v, k);
    var s, d := Slope(g, v, k), g[k + 1] - g[k];
    if s < bound { MulStrict(s, bound, d); }
    if s > bound { MulStrict(bound, s, d); }
  }

  lemma {:induction false} SlopesFall(g: seq<real>, v: seq<real>, j: nat, k: nat)
    requires |v| == |g| && Ascending(g) && ConcaveAlong(g, v) && j <= k && k + 1 < |g|
    ensures Slope(g, v, k) <= Slope(g, v, j)
  {
    hide Slope;
    if j < k {
      assert SlopeFalls(g, v, k);
      SlopesFall(g, v, j, k - 1);
    }
  }

  /** To the right of j, v gains at most the slope out of j per unit. */
  lemma {:induction false} RightGain(g: seq<real>, v: seq<real>, j: nat, x: nat, bound: real, cap: real)
    requires |v| == |g| && Ascending(g) && ConcaveAlong(g, v) && j < x < |g|
    requires Slope(g, v, j) <= bound && cap == bound * (g[x] - g[j])
    ensures v[x] - v[j] <= cap
  {
    hide Slope;
    var d := g[x] - g[x - 1];
    StepGain(g, v, x - 1);
    SlopesFall(g, v, j, x - 1);
    MulMonotone(Slope(g, v, x - 1), bound, d);
    if x > j + 1 {
      var rest := bound * (g[x - 1] - g[j]);
      RightGain(g, v, j, x - 1, bound, rest);
      assert cap == rest + bound * d;
    }
  }

  /** To the left of j, v gains at most what the slope into j loses per unit. */
  lemma {:induction false} LeftGain(g: seq<real>, v: seq<real>, j: nat, x: nat, bound: real, cap: real)
    requires |v| == |g| && Ascending(g) && ConcaveAlong(g, v) && x < j < |g|
    requires Slope(g, v, j - 1) >= -bound && cap == bound * (g[j] - g[x])
    ensures v[x] - v[j] <= cap
    decreases j - x
  {
    hide Slope;
    var d := g[x + 1] - g[x];
    StepGain(g, v, x);
    SlopesFall(g, v, x, j - 1);
    MulMonotone(-bound, Slope(g, v, x), d);
    assert -bound * d == -(bound * d);
    if x + 1 < j {
      var rest := bound * (g[j] - g[x + 1]);
      LeftGain(g, v, j, x + 1, bound, rest);
      assert cap == rest + bound * d;
    }
  }

  /** Neighbours that gain at most `bound` per unit bound every gain. */
  lemma NeighboursBound(g: seq<real>, v: seq<real>, j: nat, x: nat, bound: real, cap: real)
    requires |v| == |g| && Ascending(g) && ConcaveAlong(g, v) && j < |g| && x < |g|
    requires j + 1 < |g| ==> v[j + 1] - v[j] <= bound * (g[j + 1] - g[j])
    requires j > 0 ==> v[j - 1] - v[j] <= bound * (g[j] - g[j - 1])
    requires cap == bound * Abs(g[x] - g[j])
    ensures v[x] - v[j] <= cap
  {
    hide Slope, ConcaveAlong;
    if x > j {
      SlopeAtMost(g, v, j, bound, bound * (g[j + 1] - g[j]));
      RightGain(g, v, j, x, bound, cap);
    } else if x < j {
      var d := g[j] - g[j - 1];
      SlopeAtMost(g, v, j - 1, -bound, -bound * d);
      assert -bound * d == -(bound * d);
      LeftGain(g, v, j, x, bound, cap);
    }
  }

  /** With no gain at either neighbour there is none anywhere. */
  lemma NoNeighbourGain(g: seq<real>, v: seq<real>, j: nat, x: nat)
    requires |v| == |g| && Ascending(g) && ConcaveAlong(g, v) && j < |g| && x < |g|
    requires j + 1 < |g| ==> v[j + 1] <= v[j]
    requires j > 0 ==> v[j - 1] <= v[j]
    ensures v[x] <= v[j]
  {
    NeighboursBound(g, v, j, x, 0.0, 0.0);
  }

  lemma SlopeSum(g: seq<real>, a: seq<real>, b: seq<real>, sum: seq<real>, k: nat)
    requires |a| == |b| == |sum| == |g| && Ascending(g) && k + 1 < |g|
    requires forall k :: 0 <= k < |g| ==> sum[k] == a[k] + b[k]
    ensures Slope(g, sum, k) == Slope(g, a, k) + Slope(g, b, k)
  {
    var d := g[k + 1] - g[k];
    assert (Rise(a, k) + Rise(b, k)) / d == Rise(a, k) / d + Rise(b, k) / d;
  }

  /** The sum of concave values is concave. */
  lemma ConcaveSum(g: seq<real>, a: seq<real>, b: seq<real>, sum: seq<real>)
    requires |a| == |b| == |sum| == |g| && Ascending(g) && ConcaveAlong(g, a) && ConcaveAlong(g, b)
    requires forall k :: 0 <= k < |g| ==> sum[k] == a[k] + b[k]
    ensures ConcaveAlong(g, sum)
  {
    forall k: nat | 0 < k && k + 1 < |g|
      ensures SlopeFalls(g, sum, k)
    {
      SlopeSum(g, a, b, sum, k);
      SlopeSum(g, a, b, sum, k - 1);
      assert SlopeFalls(g, a, k) && SlopeFalls(g, b, k);
    }
  }
}
