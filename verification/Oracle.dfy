/** The centralized oracle: exhaustive search over whole-step candidates plus breakpoints. */
module Oracle {
  import opened Numeric
  import opened Grids
  import opened PiecewiseLinear

  /** Steps of the candidate grid: `int(upper / step + 1e-9)`. */
  function StepCount(upper: real, step: real): int
    requires step > 0.0
  {
    Trunc(upper / step + 0.000000001)
  }

  /** The set `_candidates` collects before sorting. */
  ghost predicate IsCandidate(x: real, upper: real, step: real, breakpoints: seq<real>)
    requires step > 0.0
  {
    || (exists i: nat :: i <= StepCount(upper, step) && x == Point(0.0, step, i))
    || x == upper
    || (x in breakpoints && 0.0 <= x <= upper)
  }

  /** Insertion into an ascending list, dropping duplicates as the set does. */
  function Insert(s: seq<real>, x: real): (r: seq<real>)
    requires Ascending(s)
    ensures Ascending(r)
    ensures forall y :: y in r <==> y in s || y == x
    ensures |r| > 0 && r[|r| - 1] == if |s| == 0 then x else Max(s[|s| - 1], x)
  {
    if |s| == 0 then [x]
    else if x == s[|s| - 1] then s
    else if x > s[|s| - 1] then s + [x]
    else
      var init := s[..|s| - 1];
      assert s == init + [s[|s| - 1]];
      assert forall y :: y in s <==> y in init || y == s[|s| - 1];
      var t := Insert(init, x);
      assert t[|t| - 1] < s[|s| - 1];
      assert forall k :: 0 <= k < |t| ==> t[k] <= t[|t| - 1];
      t + [s[|s| - 1]]
  }

  lemma StepCountNonNegative(upper: real, step: real)
    requires step > 0.0 && upper >= 0.0
    ensures StepCount(upper, step) >= 0
  {
    DivMul(upper, step);
  }

  /** `_candidates`: the two ValueError branches are Err. */
  method Candidates(upper: real, step: real, breakpoints: seq<real>) returns (r: Result<seq<real>, string>)
    ensures r.Err? <==> step <= 0.0 || upper < 0.0
    ensures r.Ok? ==> Ascending(r.value) && |r.value| > 0
    ensures r.Ok? ==> forall x :: x in r.value <==> IsCandidate(x, upper, step, breakpoints)
  {
    if step <= 0.0 {
      return Err("step must be > 0");
    }
    if upper < 0.0 {
      return Err("upper must be >= 0");
    }
    var n := StepCount(upper, step);
    StepCountNonNegative(upper, step);
    var points: seq<real> := [];
    for i := 0 to n + 1
      invariant Ascending(points)
      invariant forall x :: x in points <==> exists j: nat :: j < i && x == Point(0.0, step, j)
    {
      points := Insert(points, Point(0.0, step, i));
    }
    points := Insert(points, upper);
    ghost var base := points;
    for k := 0 to |breakpoints|
      invariant Ascending(points) && |points| > 0
      invariant forall x :: x in points <==> x in base || (x in breakpoints[..k] && 0.0 <= x <= upper)
    {
      if 0.0 <= breakpoints[k] <= upper {
        points := Insert(points, breakpoints[k]);
      }
      assert breakpoints[..k + 1] == breakpoints[..k] + [breakpoints[k]];
    }
    assert breakpoints[..|breakpoints|] == breakpoints;
    r := Ok(points);
  }

  /** The search loop: ties keep the smaller quantity because candidates ascend. */
  method Search(grid: seq<real>, total: Utility) returns (bestQ: real)
    requires |grid| > 0
    ensures bestQ in grid
    ensures forall x :: x in grid ==> total(x) <= total(bestQ)
    ensures Ascending(grid) ==> forall x :: x in grid && x < bestQ ==> total(x) < total(bestQ)
  {
    bestQ := grid[0];
    var best: Option<real> := None;  // None stands for -inf
    var k := 0;
    for i := 0 to |grid|
      invariant 0 <= k < |grid| && bestQ == grid[k]
      invariant best == if i == 0 then None else Some(total(bestQ))
      invariant i > 0 ==> k < i
      invariant forall j :: 0 <= j < i ==> total(grid[j]) <= total(grid[k])
      invariant forall j :: 0 <= j < k && j < i ==> total(grid[j]) < total(grid[k])
    {
      var value := total(grid[i]);
      if best.None? || value > best.value {
        best := Some(value);
        bestQ := grid[i];
        k := i;
      }
    }
  }

  // ---- exactness on piecewise-linear utilities (step 1, the default)

  /** Every bend lies at a whole unit, at the forecast demand, or outside (0, upper). */
  ghost predicate KinksCovered(p: Pwl, upper: real, demand: real) {
    forall k :: 0 <= k < |p.hinges| ==>
      var t := p.hinges[k].kink;
      t.Floor as real == t || t == demand || t <= 0.0 || upper <= t
  }

  lemma WholeIsCandidate(i: nat, upper: real, breakpoints: seq<real>)
    requires i as real <= upper
    ensures IsCandidate(i as real, upper, 1.0, breakpoints)
  {
    var x := i as real;
    assert Millionths(x) by {
      assert x * 1000000.0 == (i * 1000000) as real;
    }
    Round6OfMillionths(x);
    assert x == Point(0.0, 1.0, i);
    assert upper / 1.0 == upper;
    assert i <= StepCount(upper, 1.0);
  }

  /** The ends of the bracket around x. */
  function Below(demand: real, x: real): real {
    Max(x.Floor as real, if demand <= x then demand else 0.0)
  }

  function Above(upper: real, demand: real, x: real): real {
    Min(Min(upper, (x.Floor + 1) as real), if x < demand then demand else upper)
  }

  lemma NoKinkInside(p: Pwl, upper: real, demand: real, x: real)
    requires KinksCovered(p, upper, demand) && 0.0 <= x <= upper
    ensures p.StraightOn(Below(demand, x), Above(upper, demand, x))
  {
    forall k | 0 <= k < |p.hinges|
      ensures p.hinges[k].kink <= Below(demand, x) || Above(upper, demand, x) <= p.hinges[k].kink
    {
      var t := p.hinges[k].kink;
      if t.Floor as real == t {
        assert t.Floor <= x.Floor || t.Floor >= x.Floor + 1;
      }
    }
  }

  /** Around any quantity in range, two candidates with no bend strictly between them. */
  lemma Bracket(upper: real, demand: real, x: real)
    requires 0.0 <= x <= upper
    ensures var a, b := Below(demand, x), Above(upper, demand, x);
            a <= x <= b && IsCandidate(a, upper, 1.0, [demand]) && IsCandidate(b, upper, 1.0, [demand])
  {
    WholeIsCandidate(x.Floor, upper, [demand]);
    if (x.Floor + 1) as real <= upper {
      WholeIsCandidate(x.Floor + 1, upper, [demand]);
    }
    hide StepCount, Point;
    assert Below(demand, x) == x.Floor as real || (Below(demand, x) == demand && 0.0 <= demand <= upper);
  }

  /**
   * The oracle's best candidate is at least as good as every real quantity in [0, upper],
   * for any piecewise-linear joint utility whose bends are covered; concavity is not needed.
   */
  lemma BestCandidateIsExact(p: Pwl, upper: real, demand: real, best: real, x: real)
    requires KinksCovered(p, upper, demand) && 0.0 <= x <= upper
    requires forall c :: IsCandidate(c, upper, 1.0, [demand]) ==> p.At(c) <= p.At(best)
    ensures p.At(x) <= p.At(best)
  {
    hide IsCandidate;
    Bracket(upper, demand, x);
    NoKinkInside(p, upper, demand, x);
    p.EndsDominate(Below(demand, x), Above(upper, demand, x), x);
  }

  // ---- when candidates stay within the bound

  /** The step count of the default unit grid. */
  lemma UnitStepCount(upper: real)
    requires upper >= 0.0
    ensures StepCount(upper, 1.0) == (upper + 0.000000001).Floor
  {
  }

  lemma PointsRise(step: real, i: nat, j: nat)
    requires step > 0.0 && i <= j
    ensures Point(0.0, step, i) <= Point(0.0, step, j)
  {
    if i < j {
      PointSeparation(0.0, step, i, j);
    }
  }

  lemma FirstPoint(step: real)
    ensures Point(0.0, step, 0) == 0.0
  {
    assert 0.0 + 0 as real * step == 0.0;
    RoundOfInteger(0);
  }

  /**
   * `_candidates` promises points in [0, upper]. For any step and breakpoints that holds exactly
   * when the last step point, counted with the 1e-9 nudge and rounded to six places, does.
   */
  lemma CandidatesWithinBoundIff(upper: real, step: real, breakpoints: seq<real>)
    requires upper >= 0.0 && step > 0.0
    ensures (forall x :: IsCandidate(x, upper, step, breakpoints) ==> 0.0 <= x <= upper)
       <==> Point(0.0, step, StepCount(upper, step)) <= upper
  {
    hide Point;
    var n := StepCount(upper, step);
    StepCountNonNegative(upper, step);
    if Point(0.0, step, n) <= upper {
      forall x | IsCandidate(x, upper, step, breakpoints)
        ensures 0.0 <= x <= upper
      {
        if i: nat :| i <= n && x == Point(0.0, step, i) {
          PointsRise(step, 0, i);
          PointsRise(step, i, n);
          FirstPoint(step);
        }
      }
    } else {
      assert IsCandidate(Point(0.0, step, n), upper, step, breakpoints);
    }
  }

  lemma UnitPoint(i: nat)
    ensures Point(0.0, 1.0, i) == i as real
  {
    assert Millionths(i as real) by {
      assert i as real * 1000000.0 == (i * 1000000) as real;
    }
    Round6OfMillionths(i as real);
  }

  /** At unit steps: exactly when upper does not fall short of a whole number by 1e-9 or less. */
  lemma UnitCandidatesWithinBoundIff(upper: real, breakpoints: seq<real>)
    requires upper >= 0.0
    ensures (forall x :: IsCandidate(x, upper, 1.0, breakpoints) ==> 0.0 <= x <= upper)
       <==> (upper + 0.000000001).Floor as real <= upper
  {
    UnitStepCount(upper);
    UnitPoint(StepCount(upper, 1.0));
    CandidatesWithinBoundIff(upper, 1.0, breakpoints);
  }
}
