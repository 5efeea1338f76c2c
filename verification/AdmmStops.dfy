/** How ADMM can stop on a grid no finer than two tolerances, and when that is optimal. */
module AdmmStops {
  import opened Numeric
  import opened Grids
  import opened Concave
  import opened Admm

  /** Neighbouring grid points are at least two tolerances apart. */
  ghost predicate Spaced(g: seq<real>, tolerance: real) {
    Ascending(g) && forall k: nat {:trigger Rise(g, k)} :: k + 1 < |g| ==> Rise(g, k) >= 2.0 * tolerance
  }

  lemma {:induction false} FarApart(g: seq<real>, tolerance: real, i: nat, j: nat)
    requires Spaced(g, tolerance) && tolerance >= 0.0 && i < j < |g|
    ensures g[j] - g[i] >= 2.0 * tolerance
    ensures j > i + 1 ==> g[j] - g[i] >= 4.0 * tolerance
    decreases j - i
  {
    assert Rise(g, i) >= 2.0 * tolerance;
    if j > i + 1 {
      FarApart(g, tolerance, i + 1, j);
    }
  }

  /** Everyone sits on grid point i or on the next one, the consensus halfway between. */
  ghost predicate Straddles(n: Network, s: State, i: nat, tolerance: real)
    requires n.Valid() && |s.duals| == |n.us|
  {
    && i + 1 < |n.grid| && n.grid[i + 1] - n.grid[i] == 2.0 * tolerance
    && n.Next(s).z == n.grid[i] + tolerance
    && n.PrimalResidual(s) == tolerance
    && forall p :: 0 <= p < |n.us| ==> n.Reply(p, s) == n.grid[i] || n.Reply(p, s) == n.grid[i + 1]
  }

  lemma ReplyOnGrid(n: Network, s: State, p: nat) returns (i: nat)
    requires n.Valid() && |s.duals| == |n.us| && p < |n.us|
    ensures i < |n.grid| && n.grid[i] == n.Reply(p, s)
  {
    i := FirstMax(n.grid, n.Lagrangian(n.us[p], s.duals[p], s.z));
  }

  lemma {:induction false} SumStrict(a: seq<real>, b: seq<real>, p: nat, n: nat)
    requires p < n <= |a| && n <= |b| && a[p] < b[p]
    requires forall k :: 0 <= k < n ==> a[k] <= b[k]
    ensures SumTo(a, n) < SumTo(b, n)
  {
    if p == n - 1 {
      SumMonotone(a, b, n - 1);
    } else {
      SumStrict(a, b, p, n - 1);
    }
  }

  /** Numbers that are not all equal to their mean lie on both sides of it. */
  lemma BothSides(qs: seq<real>, z: real, p: nat) returns (lo: nat, hi: nat)
    requires p < |qs| && qs[p] != z && z == Mean(qs)
    ensures lo < |qs| && hi < |qs| && qs[lo] < z < qs[hi]
  {
    hide SumTo;
    MeanTimes(qs);
    var level := seq(|qs|, k => z);
    SumConstant(level, z, |qs|);
    if forall k :: 0 <= k < |qs| ==> qs[k] <= z {
      SumStrict(qs, level, p, |qs|);
      assert false;
    }
    if forall k :: 0 <= k < |qs| ==> z <= qs[k] {
      SumStrict(level, qs, p, |qs|);
      assert false;
    }
    hi :| 0 <= hi < |qs| && qs[hi] > z;
    lo :| 0 <= lo < |qs| && qs[lo] < z;
  }

  /** Someone is on each side of the consensus, or everyone is on it. */
  lemma SomeoneBelow(n: Network, s: State) returns (lo: nat, hi: nat)
    requires n.Valid() && |s.duals| == |n.us|
    ensures lo < |n.us| && hi < |n.us|
    ensures n.PrimalResidual(s) != 0.0 ==> n.Reply(lo, s) < n.Next(s).z < n.Reply(hi, s)
  {
    hide FirstMax, n.Next, n.Reply, n.PrimalResidual, Mean;
    lo, hi := 0, 0;
    n.NextIsMean(s);
    if n.PrimalResidual(s) != 0.0 {
      n.NoResidualIffAgree(s);
      var p :| 0 <= p < |n.us| && n.Reply(p, s) != n.Next(s).z;
      lo, hi := BothSides(n.Replies(s), n.Next(s).z, p);
    }
  }

  lemma AscendingOrder(g: seq<real>, tolerance: real, i: nat, j: nat)
    requires Spaced(g, tolerance) && i < |g| && j < |g| && g[i] < g[j]
    ensures i < j
  {
  }

  /** A stop is an exact agreement, or straddles two neighbours exactly two tolerances apart. */
  lemma StopCases(n: Network, s: State, tolerance: real) returns (i: nat)
    requires n.Valid() && |s.duals| == |n.us| && Spaced(n.grid, tolerance)
    requires n.PrimalResidual(s) <= tolerance
    ensures n.PrimalResidual(s) == 0.0 || Straddles(n, s, i, tolerance)
  {
    hide n.Reply, n.Next, n.PrimalResidual, Spaced;
    i := 0;
    var lo, hi := SomeoneBelow(n, s);
    if n.PrimalResidual(s) != 0.0 {
      i := ReplyOnGrid(n, s, lo);
      var j := ReplyOnGrid(n, s, hi);
      n.ReplyWithin(s, lo);
      n.ReplyWithin(s, hi);
      assert i < j by { AscendingOrder(n.grid, tolerance, i, j); }
      FarApart(n.grid, tolerance, i, j);
      assert j == i + 1;
      forall p | 0 <= p < |n.us|
        ensures n.Reply(p, s) == n.grid[i] || n.Reply(p, s) == n.grid[i + 1]
      {
        var k := ReplyOnGrid(n, s, p);
        n.ReplyWithin(s, p);
        if k < i {
          FarApart(n.grid, tolerance, k, j);
        } else if k > j {
          FarApart(n.grid, tolerance, i, k);
        }
      }
    }
  }

  // ---- what a straddling stop says about the neighbours

  /** Participant p's utilities along the grid. */
  function Own(n: Network, p: nat): (v: seq<real>)
    requires p < |n.us|
    ensures |v| == |n.grid|
  {
    seq(|n.grid|, k requires 0 <= k < |n.grid| => n.us[p](n.grid[k]))
  }

  ghost predicate ConcaveParties(n: Network) {
    Ascending(n.grid) && forall p :: 0 <= p < |n.us| ==> ConcaveAlong(n.grid, Own(n, p))
  }

  /** Joint utilities of the first m participants along the grid. */
  function Partial(n: Network, m: nat): (v: seq<real>)
    requires m <= |n.us|
    ensures |v| == |n.grid|
  {
    seq(|n.grid|, k requires 0 <= k < |n.grid| => SumTo(n.Utilities(n.grid[k]), m))
  }

  lemma ZeroConcave(g: seq<real>, v: seq<real>)
    requires |v| == |g| && Ascending(g) && forall k :: 0 <= k < |g| ==> v[k] == 0.0
    ensures ConcaveAlong(g, v)
  {
    forall k: nat | 0 < k && k + 1 < |g|
      ensures SlopeFalls(g, v, k)
    {
      hide Slope;
      SlopeAtMost(g, v, k, 0.0, 0.0);
      SlopeAtMost(g, v, k - 1, 0.0, 0.0);
    }
  }

  lemma {:induction false} PartialConcave(n: Network, m: nat)
    requires m <= |n.us| && ConcaveParties(n)
    ensures ConcaveAlong(n.grid, Partial(n, m))
  {
    hide ConcaveAlong;
    if m == 0 {
      assert ConcaveAlong(n.grid, Partial(n, 0)) by { ZeroConcave(n.grid, Partial(n, 0)); }
    } else {
      PartialConcave(n, m - 1);
      ConcaveSum(n.grid, Partial(n, m - 1), Own(n, m - 1), Partial(n, m));
    }
  }

  /** Concave participants have a concave joint utility. */
  lemma JointConcave(n: Network)
    requires ConcaveParties(n)
    ensures ConcaveAlong(n.grid, n.Values())
  {
    hide ConcaveAlong, ConcaveParties;
    PartialConcave(n, |n.us|);
    assert n.Values() == Partial(n, |n.us|);
  }

  /** The extra a participant sitting on the near side can hope for by stepping outward. */
  function Extra(n: Network, d: real, tolerance: real): real {
    n.rho * (d * tolerance) + n.Half(d)
  }

  /** What a signed move from the near side outward, d long, can gain participant p. */
  ghost predicate OutwardGain(n: Network, s: State, p: nat, near: real, far: real, move: real, d: real, tolerance: real)
    requires n.Valid() && |s.duals| == |n.us| && p < |n.us|
  {
    n.us[p](far) - n.us[p](near) <=
      move * s.duals[p] + move * n.Drift(s, n.Next(s).z)
      + if n.Reply(p, s) == near then Extra(n, d, tolerance) else 0.0
  }

  lemma WorthStep(n: Network, s: State, p: nat, q: real, d: real, e: real)
    requires |s.duals| == |n.us| && p < |n.us| && e == q - s.z
    ensures n.Worth(p, s, q + d) - n.Worth(p, s, q) == n.us[p](q + d) - n.us[p](q) - s.duals[p] * d - n.Half(d) - n.rho * (d * e)
  {
    hide n.Half;
    n.SquareExpands(d, e);
    var lam, x := s.duals[p], q + d;
    assert d + e == x - s.z;
    assert n.Half(x - s.z) == n.Half(d + e) && n.Half(q - s.z) == n.Half(e);
    assert lam * x == lam * q + lam * d;
    assert n.Worth(p, s, x) == n.us[p](x) - lam * x - n.Half(x - s.z);
    assert n.Worth(p, s, q) == n.us[p](q) - lam * q - n.Half(q - s.z);
  }

  lemma ReplyPrefers(n: Network, s: State, p: nat, x: real, d: real, e: real)
    requires n.Valid() && |s.duals| == |n.us| && p < |n.us| && x in n.grid
    requires x == n.Reply(p, s) + d && e == n.Reply(p, s) - s.z
    ensures n.us[p](x) - n.us[p](n.Reply(p, s)) <= s.duals[p] * d + n.Half(d) + n.rho * (d * e)
  {
    hide n.Reply, n.Half, n.Worth;
    n.ReplyIsBest(p, s, x);
    WorthStep(n, s, p, n.Reply(p, s), d, e);
  }

  /** Moving outward from one's own side, by a signed move of length d. */
  lemma NearSide(n: Network, lam: real, move: real, d: real, e: real, side: real, tolerance: real)
    requires (move == d && side == tolerance) || (move == -d && side == -tolerance)
    ensures lam * move + n.Half(d) + n.rho * (move * (e + side)) == move * lam + move * (n.rho * e) + Extra(n, d, tolerance)
  {
    hide n.Half;
    assert move * (e + side) == move * e + d * tolerance by { assert move * side == d * tolerance; }
    assert n.rho * (move * e + d * tolerance) == n.rho * (move * e) + n.rho * (d * tolerance);
    assert n.rho * (move * e) == move * (n.rho * e);
  }

  lemma Distribute(a: real, b: real, d: real)
    ensures (a + b) * d == d * a + d * b
  {
  }

  /** Crossing the two tolerances between the neighbours, the proximal term is linear. */
  lemma BackAndForth(n: Network, w: real, e: real, t: real, lam: real)
    requires w == 2.0 * t
    ensures lam * w + n.Half(w) + n.rho * (w * (e - t)) == (lam + n.rho * e) * w
  {
    var re, wt := n.rho * e, n.rho * (w * t);
    assert n.Half(w) == wt by { assert w * w == 2.0 * (w * t); }
    assert n.rho * (w * (e - t)) == re * w - wt;
  }

  /** A participant whose step from i to i + 1 gains at most rate per unit gains no more on the next step. */
  lemma ConcaveStep(n: Network, p: nat, i: nat, rate: real)
    requires p < |n.us| && ConcaveParties(n) && i + 2 < |n.grid|
    requires n.us[p](n.grid[i + 1]) - n.us[p](n.grid[i]) <= rate * (n.grid[i + 1] - n.grid[i])
    ensures n.us[p](n.grid[i + 2]) - n.us[p](n.grid[i + 1]) <= rate * (n.grid[i + 2] - n.grid[i + 1])
  {
    hide Slope;
    var g, v := n.grid, Own(n, p);
    SlopeAtMost(g, v, i, rate, rate * (g[i + 1] - g[i]));
    SlopesFall(g, v, i, i + 1);
    SlopeAtMost(g, v, i + 1, rate, rate * (g[i + 2] - g[i + 1]));
  }

  lemma RightGainOf(n: Network, s: State, i: nat, p: nat, tolerance: real)
    requires n.Valid() && |s.duals| == |n.us| && p < |n.us| && tolerance > 0.0
    requires ConcaveParties(n) && Straddles(n, s, i, tolerance) && i + 2 < |n.grid|
    ensures var d := n.grid[i + 2] - n.grid[i + 1]; OutwardGain(n, s, p, n.grid[i + 1], n.grid[i + 2], d, d, tolerance)
  {
    hide n.Reply, n.Next, n.PrimalResidual, n.Half, ConcaveAlong, ConcaveParties, Extra;
    var g, lam := n.grid, s.duals[p];
    var a, b, c := g[i], g[i + 1], g[i + 2];
    var d, e, re := c - b, n.Next(s).z - s.z, n.Drift(s, n.Next(s).z);
    if n.Reply(p, s) == b {
      assert b - s.z == e + tolerance;
      ReplyPrefers(n, s, p, c, d, e + tolerance);
      NearSide(n, lam, d, d, e, tolerance, tolerance);
    } else {
      var w := 2.0 * tolerance;
      assert a - s.z == e - tolerance;
      ReplyPrefers(n, s, p, b, w, e - tolerance);
      BackAndForth(n, w, e, tolerance, lam);
      ConcaveStep(n, p, i, lam + re);
      Distribute(lam, re, d);
    }
  }

  lemma LeftAcross(rise: real, rate: real, w: real, d: real)
    requires -rise <= rate * w && w == -d
    ensures rise >= rate * d
  {
    assert rate * w == -(rate * d);
  }

  lemma HalfEven(n: Network, d: real)
    ensures n.Half(-d) == n.Half(d)
  {
  }

  lemma ConcaveStepBack(n: Network, p: nat, i: nat, rate: real)
    requires p < |n.us| && ConcaveParties(n) && 0 < i && i + 1 < |n.grid|
    requires n.us[p](n.grid[i + 1]) - n.us[p](n.grid[i]) >= rate * (n.grid[i + 1] - n.grid[i])
    ensures n.us[p](n.grid[i]) - n.us[p](n.grid[i - 1]) >= rate * (n.grid[i] - n.grid[i - 1])
  {
    hide Slope;
    var g, v := n.grid, Own(n, p);
    SlopeAtMost(g, v, i, rate, rate * (g[i + 1] - g[i]));
    SlopesFall(g, v, i - 1, i);
    SlopeAtMost(g, v, i - 1, rate, rate * (g[i] - g[i - 1]));
  }

  lemma LeftGainOf(n: Network, s: State, i: nat, p: nat, tolerance: real)
    requires n.Valid() && |s.duals| == |n.us| && p < |n.us| && tolerance > 0.0
    requires ConcaveParties(n) && Straddles(n, s, i, tolerance) && i > 0
    ensures var d := n.grid[i] - n.grid[i - 1]; OutwardGain(n, s, p, n.grid[i], n.grid[i - 1], -d, d, tolerance)
  {
    hide n.Reply, n.Next, n.PrimalResidual, n.Half, ConcaveAlong, ConcaveParties, Extra;
    var g, lam := n.grid, s.duals[p];
    var o, a, b := g[i - 1], g[i], g[i + 1];
    var d, e, re := a - o, n.Next(s).z - s.z, n.Drift(s, n.Next(s).z);
    if n.Reply(p, s) == a {
      var move, side := -d, -tolerance;
      assert a - s.z == e + side;
      ReplyPrefers(n, s, p, o, move, e + side);
      HalfEven(n, d);
      NearSide(n, lam, move, d, e, side, tolerance);
    } else {
      var w := -2.0 * tolerance;
      assert b - s.z == e - -tolerance;
      ReplyPrefers(n, s, p, a, w, e - -tolerance);
      BackAndForth(n, w, e, -tolerance, lam);
      LeftAcross(n.us[p](b) - n.us[p](a), lam + re, w, b - a);
      ConcaveStepBack(n, p, i, lam + re);
      Distribute(lam, re, d);
      Distribute(lam, re, -d);
      assert (lam + re) * -d == -((lam + re) * d);
    }
  }

  lemma HalfShare(sign: real, extra: real, tolerance: real, kappa: real)
    requires tolerance > 0.0 && kappa == sign * extra / (2.0 * tolerance)
    ensures kappa * tolerance == sign * (extra / 2.0)
  {
    DivMul(sign * extra, 2.0 * tolerance);
    assert kappa * (2.0 * tolerance) == 2.0 * (kappa * tolerance);
  }

  /** Half the extra, shifted by the side the participant sits on. */
  lemma ShareOf(kappa: real, q: real, v: real, tolerance: real, sign: real, half: real)
    requires kappa * tolerance == sign * half && (sign == 1.0 || sign == -1.0)
    ensures q == v + sign * tolerance ==> kappa * q - kappa * v == half
    ensures q == v - sign * tolerance ==> kappa * q - kappa * v == -half
  {
    if q == v + sign * tolerance {
      assert kappa * q - kappa * v == kappa * (sign * tolerance);
    } else if q == v - sign * tolerance {
      assert kappa * q - kappa * v == kappa * -(sign * tolerance);
    }
  }

  /** One participant's outward gain, as a linear function of its quantity. */
  lemma OneShare(n: Network, s: State, i: nat, p: nat, near: real, far: real, sign: real, move: real, d: real, tolerance: real, kappa: real, c: real)
    requires n.Valid() && |s.duals| == |n.us| && p < |n.us| && tolerance > 0.0
    requires Straddles(n, s, i, tolerance)
    requires (sign == 1.0 && near == n.grid[i + 1]) || (sign == -1.0 && near == n.grid[i])
    requires OutwardGain(n, s, p, near, far, move, d, tolerance)
    requires kappa == sign * Extra(n, d, tolerance) / (2.0 * tolerance)
    requires c == move * n.Drift(s, n.Next(s).z) + Extra(n, d, tolerance) / 2.0
    ensures n.us[p](far) - n.us[p](near)
      <= Multiplied(move, s.duals)[p] + Multiplied(kappa, n.Replies(s))[p] + (c - kappa * n.Next(s).z)
  {
    hide n.Reply, n.Next, n.PrimalResidual, Extra, n.Drift;
    var extra, q, v := Extra(n, d, tolerance), n.Reply(p, s), n.Next(s).z;
    HalfShare(sign, extra, tolerance, kappa);
    ShareOf(kappa, q, v, tolerance, sign, extra / 2.0);
    assert Multiplied(move, s.duals)[p] == move * s.duals[p];
    assert Multiplied(kappa, n.Replies(s))[p] == kappa * q;
  }

  lemma DualResidualIs(n: Network, s: State)
    requires n.Valid() && |s.duals| == |n.us|
    ensures n.DualResidual(s) == n.rho * Abs(n.Next(s).z - s.z)
  {
  }

  lemma TotalIs(n: Network, x: real)
    ensures n.Total(x) == Sum(n.Utilities(x))
  {
  }

  lemma CapsTotal(kappa: real, v: real, c: real, m: real, total: real)
    requires total == v * m
    ensures kappa * total + (c - kappa * v) * m == c * m
    ensures -(c - kappa * v) * m == -((c - kappa * v) * m)
  {
    var kv := kappa * v;
    assert kappa * total == kv * m;
    assert (c - kv) * m == c * m - kv * m;
  }

  lemma LinearCapTotal(a: seq<real>, b: seq<real>, duals: seq<real>, qs: seq<real>, rate: real, kappa: real, v: real, c: real)
    requires |a| == |b| == |duals| == |qs|
    requires forall p :: 0 <= p < |a| ==> a[p] - b[p] <= Multiplied(rate, duals)[p] + Multiplied(kappa, qs)[p] + (c - kappa * v)
    requires Sum(duals) == 0.0 && Sum(qs) == v * |qs| as real
    ensures Sum(a) - Sum(b) <= c * |a| as real
  {
    hide SumTo, Multiplied;
    var m := |a|;
    var charges, moves, shift := Multiplied(rate, duals), Multiplied(kappa, qs), c - kappa * v;
    var over := seq(m, p requires 0 <= p < m => a[p] - b[p] - charges[p] - moves[p] + -shift);
    var level := seq(m, p => 0.0);
    SumsOrdered(over, level);
    SumConstant(level, 0.0, m);
    SumOfParts(over, a, b, charges, moves, -shift, m);
    SumMultiplied(rate, duals);
    SumMultiplied(kappa, qs);
    CapsTotal(kappa, v, c, m as real, Sum(qs));
  }

  lemma SignedDrift(rho: real, sign: real, d: real, e: real, tolerance: real)
    requires rho >= 0.0 && d >= 0.0 && rho * Abs(e) <= tolerance && (sign == 1.0 || sign == -1.0)
    ensures (sign * d) * (rho * e) <= tolerance * d
  {
    var re := rho * e;
    AbsScale(rho, e, re);
    MulMonotone(sign * re, tolerance, d);
    assert sign * re * d == sign * d * re;
  }

  lemma ExtraIsSmall(n: Network, d: real, tolerance: real)
    requires n.rho >= 0.0 && tolerance > 0.0 && d >= 2.0 * tolerance
    ensures Extra(n, d, tolerance) / 2.0 <= n.Half(d)
  {
    MulMonotone(2.0 * tolerance, d, d);
    MulMonotone(d * tolerance, d * d / 2.0, n.rho);
    assert n.rho * (d * d / 2.0) == n.Half(d);
  }

  lemma OutwardCap(n: Network, sign: real, d: real, e: real, tolerance: real, c: real)
    requires n.rho >= 0.0 && tolerance > 0.0 && d >= 2.0 * tolerance && n.rho * Abs(e) <= tolerance
    requires sign == 1.0 || sign == -1.0
    requires c == (sign * d) * (n.rho * e) + Extra(n, d, tolerance) / 2.0
    ensures c <= n.Half(d) + tolerance * d
  {
    hide n.Half;
    SignedDrift(n.rho, sign, d, e, tolerance);
    ExtraIsSmall(n, d, tolerance);
  }

  lemma SlackIs(n: Network, d: real, tolerance: real)
    ensures n.Slack(d, tolerance) == n.Crowd(n.Half(d) + tolerance * d)
  {
  }

  /** Summed over everyone, half of whom sit on the near side, a step outward gains at most its slack. */
  lemma OutwardSum(n: Network, s: State, i: nat, near: real, far: real, sign: real, move: real, d: real, tolerance: real)
    requires n.Valid() && |s.duals| == |n.us| && n.rho >= 0.0 && tolerance > 0.0
    requires Straddles(n, s, i, tolerance) && Sum(s.duals) == 0.0 && n.DualResidual(s) <= tolerance
    requires (sign == 1.0 && near == n.grid[i + 1]) || (sign == -1.0 && near == n.grid[i])
    requires d >= 2.0 * tolerance && move == sign * d
    requires forall p :: 0 <= p < |n.us| ==> OutwardGain(n, s, p, near, far, move, d, tolerance)
    ensures n.Total(far) - n.Total(near) <= n.Slack(d, tolerance)
  {
    hide n.Reply, n.Next, n.PrimalResidual, n.Half, n.Slack, Sum, n.DualResidual, n.Total, Extra, Multiplied, Straddles;
    var v, e, extra, m := n.Next(s).z, n.Next(s).z - s.z, Extra(n, d, tolerance), |n.us|;
    var qs, ufar, unear := n.Replies(s), n.Utilities(far), n.Utilities(near);
    var kappa := sign * extra / (2.0 * tolerance);
    var c := move * n.Drift(s, v) + extra / 2.0;
    forall p | 0 <= p < m
      ensures ufar[p] - unear[p] <= Multiplied(move, s.duals)[p] + Multiplied(kappa, qs)[p] + (c - kappa * v)
    {
      assert OutwardGain(n, s, p, near, far, move, d, tolerance);
      OneShare(n, s, i, p, near, far, sign, move, d, tolerance, kappa, c);
    }
    n.NextIsMean(s);
    MeanTimes(qs);
    LinearCapTotal(ufar, unear, s.duals, qs, move, kappa, v, c);
    DualResidualIs(n, s);
    OutwardCap(n, sign, d, e, tolerance, c);
    n.CrowdMonotone(c, n.Half(d) + tolerance * d);
    SlackIs(n, d, tolerance);
    TotalIs(n, far);
    TotalIs(n, near);
  }

  // ---- when a stop is optimal

  /** Every step along the grid changes the joint utility by more than the slack of its width. */
  ghost predicate Steep(n: Network, tolerance: real)
    requires Ascending(n.grid)
  {
    forall k: nat {:trigger Rise(n.Values(), k)} :: k + 1 < |n.grid| ==>
      Abs(Rise(n.Values(), k)) > n.Slack(n.grid[k + 1] - n.grid[k], tolerance)
  }

  /** Between neighbouring grid points the joint utility is linear, at least at their midpoint. */
  ghost predicate LinearBetween(n: Network) {
    forall k: nat {:trigger Rise(n.grid, k)} :: k + 1 < |n.grid| ==>
      n.Total((n.grid[k] + n.grid[k + 1]) / 2.0) == (n.Total(n.grid[k]) + n.Total(n.grid[k + 1])) / 2.0
  }

  /** Everything the characterization asks of the network. */
  ghost predicate Regular(n: Network, tolerance: real) {
    n.Valid() && n.rho >= 0.0 && tolerance >= 0.0 && Spaced(n.grid, tolerance)
    && ConcaveParties(n) && Steep(n, tolerance)
  }

  lemma RightIsWorse(n: Network, s: State, tolerance: real, i: nat)
    requires Regular(n, tolerance) && n.Balanced(s) && n.Stops(s, tolerance) && tolerance > 0.0
    requires Straddles(n, s, i, tolerance) && i + 2 < |n.grid|
    ensures n.Values()[i + 2] <= n.Values()[i + 1]
  {
    hide n.Next, n.Total, n.Slack, n.Half, n.Reply, n.PrimalResidual, n.Values, n.DualResidual, ConcaveAlong, Straddles, OutwardGain;
    var g := n.grid;
    var near, far, d := g[i + 1], g[i + 2], g[i + 2] - g[i + 1];
    forall p | 0 <= p < |n.us|
      ensures OutwardGain(n, s, p, near, far, d, d, tolerance)
    {
      RightGainOf(n, s, i, p, tolerance);
    }
    assert Rise(g, i + 1) >= 2.0 * tolerance;
    OutwardSum(n, s, i, near, far, 1.0, d, d, tolerance);
    n.ValueAt(i + 1);
    n.ValueAt(i + 2);
    assert Rise(n.Values(), i + 1) <= n.Slack(g[i + 1 + 1] - g[i + 1], tolerance);
  }

  lemma LeftIsWorse(n: Network, s: State, tolerance: real, i: nat)
    requires Regular(n, tolerance) && n.Balanced(s) && n.Stops(s, tolerance) && tolerance > 0.0
    requires Straddles(n, s, i, tolerance) && 0 < i && i + 1 < |n.grid|
    ensures n.Values()[i - 1] <= n.Values()[i]
  {
    hide n.Next, n.Total, n.Slack, n.Half, n.Reply, n.PrimalResidual, n.Values, n.DualResidual, ConcaveAlong, Straddles, OutwardGain;
    var g := n.grid;
    var near, far, d, move := g[i], g[i - 1], g[i] - g[i - 1], g[i - 1] - g[i];
    forall p | 0 <= p < |n.us|
      ensures OutwardGain(n, s, p, near, far, move, d, tolerance)
    {
      LeftGainOf(n, s, i, p, tolerance);
    }
    assert Rise(g, i - 1) >= 2.0 * tolerance;
    OutwardSum(n, s, i, near, far, -1.0, move, d, tolerance);
    n.ValueAt(i - 1);
    n.ValueAt(i);
    assert -Rise(n.Values(), i - 1) <= n.Slack(g[i - 1 + 1] - g[i - 1], tolerance);
  }

  lemma StraddleIndex(n: Network, s: State, i: nat, tolerance: real)
    requires n.Valid() && |s.duals| == |n.us| && Ascending(n.grid) && Straddles(n, s, i, tolerance)
    ensures i + 1 < |n.grid| && tolerance > 0.0
  {
  }

  /** Next to a straddling stop nothing further out gains: one of the two neighbours is the optimum. */
  lemma StraddleBest(n: Network, s: State, tolerance: real, i: nat, x: nat)
    requires Regular(n, tolerance) && n.Balanced(s) && n.Stops(s, tolerance) && n.PrimalResidual(s) != 0.0
    requires Straddles(n, s, i, tolerance) && x < |n.grid|
    ensures n.Total(n.grid[x]) <= Max(n.Total(n.grid[i]), n.Total(n.grid[i + 1]))
  {
    hide n.Next, n.Total, n.Slack, n.Half, n.Reply, n.PrimalResidual, n.Values, n.DualResidual, ConcaveAlong, ConcaveParties, Steep, Straddles, n.Stops;
    var v := n.Values();
    StraddleIndex(n, s, i, tolerance);
    n.ValueAt(i);
    n.ValueAt(i + 1);
    n.ValueAt(x);
    if i + 2 < |n.grid| {
      RightIsWorse(n, s, tolerance, i);
    }
    if i > 0 {
      LeftIsWorse(n, s, tolerance, i);
    }
    JointConcave(n);
    NoNeighbourGain(n.grid, v, if v[i] < v[i + 1] then i + 1 else i, x);
  }

  lemma SteepIsSteepOrFlat(n: Network, tolerance: real)
    requires Ascending(n.grid) && Steep(n, tolerance)
    ensures n.SteepOrFlat(tolerance)
  {
  }

  /** Where everyone agreed, the consensus is a grid optimum. */
  lemma AgreedBest(n: Network, s: State, tolerance: real, x: nat)
    requires Regular(n, tolerance) && n.Balanced(s) && n.Stops(s, tolerance) && n.PrimalResidual(s) == 0.0
    requires x < |n.grid|
    ensures n.Total(n.grid[x]) <= n.Total(n.Next(s).z)
  {
    hide n.Next, n.Total, n.Slack, n.Half, n.PrimalResidual, n.Values, n.DualResidual, ConcaveAlong, n.Stops, ConcaveParties, n.SteepOrFlat, n.Chosen, Sum;
    assert n.SteepOrFlat(tolerance) by { SteepIsSteepOrFlat(n, tolerance); }
    hide Steep;
    n.NoResidualIffAgree(s);
    var j :| 0 <= j < |n.grid| && n.grid[j] == n.Next(s).z;
    JointConcave(n);
    n.ConcaveStopIsOptimal(s, tolerance, n.grid[|n.grid| - 1] - n.grid[0], j, x);
  }

  /**
   * On a grid spaced at least two tolerances apart, with concave participants, a joint utility
   * that changes by more than its slack from point to point and is linear in between: a stop is a
   * grid optimum exactly when the recorded residual is zero. Otherwise the consensus lies midway
   * between two neighbours, one of them the optimum, and misses it by half their difference.
   */
  lemma StopIsOptimalIff(n: Network, s: State, tolerance: real) returns (i: nat)
    requires Regular(n, tolerance) && LinearBetween(n) && n.Balanced(s) && n.Stops(s, tolerance)
    ensures (forall x :: 0 <= x < |n.grid| ==> n.Total(n.grid[x]) <= n.Total(n.Next(s).z))
      <==> n.PrimalResidual(s) == 0.0
    ensures n.PrimalResidual(s) != 0.0 ==>
      && Straddles(n, s, i, tolerance)
      && forall x :: 0 <= x < |n.grid| ==>
        n.Total(n.grid[x]) - n.Total(n.Next(s).z) <= Abs(n.Total(n.grid[i + 1]) - n.Total(n.grid[i])) / 2.0
  {
    hide n.Next, n.Total, n.Slack, n.PrimalResidual, n.Values, n.DualResidual, ConcaveParties, Spaced;
    i := StopCases(n, s, tolerance);
    if n.PrimalResidual(s) == 0.0 {
      forall x | 0 <= x < |n.grid|
        ensures n.Total(n.grid[x]) <= n.Total(n.Next(s).z)
      {
        AgreedBest(n, s, tolerance, x);
      }
    } else {
      forall x | 0 <= x < |n.grid|
        ensures n.Total(n.grid[x]) <= Max(n.Total(n.grid[i]), n.Total(n.grid[i + 1]))
      {
        StraddleBest(n, s, tolerance, i, x);
      }
      assert n.Next(s).z == (n.grid[i] + n.grid[i + 1]) / 2.0;
      assert Rise(n.grid, i) == 2.0 * tolerance;
      n.ValueAt(i);
      n.ValueAt(i + 1);
      assert Abs(Rise(n.Values(), i)) > n.Slack(n.grid[i + 1] - n.grid[i], tolerance);
      n.SlackNonNegative(n.grid[i + 1] - n.grid[i], tolerance);
      var best := if n.Total(n.grid[i]) < n.Total(n.grid[i + 1]) then i + 1 else i;
      assert n.Total(n.grid[best]) > n.Total(n.Next(s).z);
    }
  }
}
