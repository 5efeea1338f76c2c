/** The quantity grids the mechanisms search and the tie-breaking argmax they share. */
module Grids {
  import opened Numeric

  /** One participant's utility as a function of the single-period quantity. */
  type Utility = real -> real

  predicate Ascending(g: seq<real>) {
    forall i, j :: 0 <= i < j < |g| ==> g[i] < g[j]
  }

  /** k is the first index at which f is largest over g. */
  ghost predicate IsFirstMax(g: seq<real>, f: Utility, k: nat) {
    && k < |g|
    && (forall i :: 0 <= i < |g| ==> f(g[i]) <= f(g[k]))
    && (forall i :: 0 <= i < k ==> f(g[i]) < f(g[k]))
  }

  /** First index of the largest value among the first n entries. */
  function FirstMaxTo(g: seq<real>, f: Utility, n: nat): (k: nat)
    requires 0 < n <= |g|
    ensures k < n
  {
    if n == 1 then 0
    else
      var k := FirstMaxTo(g, f, n - 1);
      if f(g[n - 1]) > f(g[k]) then n - 1 else k
  }

  function FirstMax(g: seq<real>, f: Utility): (k: nat)
    requires |g| > 0
    ensures k < |g|
  {
    FirstMaxTo(g, f, |g|)
  }

  lemma {:induction false} FirstMaxToIsFirst(g: seq<real>, f: Utility, n: nat)
    requires 0 < n <= |g|
    ensures var k := FirstMaxTo(g, f, n);
            && (forall i :: 0 <= i < n ==> f(g[i]) <= f(g[k]))
            && (forall i :: 0 <= i < k ==> f(g[i]) < f(g[k]))
  {
    if n > 1 {
      FirstMaxToIsFirst(g, f, n - 1);
    }
  }

  /** The scan with a strict comparison finds the first maximum. */
  lemma FirstMaxIsFirst(g: seq<real>, f: Utility)
    requires |g| > 0
    ensures IsFirstMax(g, f, FirstMax(g, f))
  {
    FirstMaxToIsFirst(g, f, |g|);
  }

  /** There is only one first maximum. */
  lemma FirstMaxUnique(g: seq<real>, f: Utility, k: nat)
    requires IsFirstMax(g, f, k)
    ensures k == FirstMax(g, f)
  {
    FirstMaxIsFirst(g, f);
  }

  /** The scan keeps the earlier quantity on ties, so it returns the first maximum. */
  method Argmax(grid: seq<real>, fn: Utility) returns (bestQ: real)
    requires |grid| > 0
    ensures bestQ == grid[FirstMax(grid, fn)]
  {
    bestQ := grid[0];
    var bestV := fn(bestQ);
    for i := 1 to |grid|
      invariant bestQ == grid[FirstMaxTo(grid, fn, i)]
      invariant bestV == fn(bestQ)
    {
      var q := grid[i];
      var value := fn(q);
      if value > bestV {
        bestQ := q;
        bestV := value;
      }
    }
  }

  function Point(lo: real, step: real, i: nat): real {
    Round6(lo + i as real * step)
  }

  /** `_grid`: the ValueError branch is Err; a span that yields no points is empty. */
  function Grid(lo: real, hi: real, step: real): Result<seq<real>, string> {
    if step <= 0.0 then Err("step must be > 0")
    else
      var n := Trunc((hi - lo) / step) + 1;
      Ok(if n < 0 then [] else seq(n + 1, i requires 0 <= i => Point(lo, step, i)))
  }

  /** `_scenario_grid`: up to the larger of capacity (default twice demand) and 1.5 x demand. */
  function ScenarioUpper(capacity: Option<real>, demandMean: real): real {
    var cap := if capacity.Some? then capacity.value else demandMean * 2.0;
    Max(cap, demandMean * 1.5)
  }

  lemma QuotientBounds(x: real, step: real, r: real, n: int)
    requires step > 0.0 && x >= 0.0 && r * step == x && n == r.Floor
    ensures n >= 0
    ensures n as real * step <= x < n as real * step + step
  {
    if r < 0.0 {
      MulStrict(r, 0.0, step);
    }
    MulMonotone(n as real, r, step);
    var m: real := n as real + 1.0;
    MulStrict(r, m, step);
    assert m * step == n as real * step + step;
    assert x < m * step;
  }

  /** The point one past the last whole step below x. */
  lemma PointAfter(lo: real, step: real, m: nat, x: real)
    requires step > 0.0
    requires m as real * step <= x < m as real * step + step
    ensures lo + x - 0.0000005 <= Point(lo, step, m + 1) <= lo + x + step + 0.0000005
  {
    var y := (m + 1) as real * step;
    assert y == m as real * step + step;
    assert Point(lo, step, m + 1) == Round6(lo + y);
  }

  /**
   * Every grid starts at lo, reaches hi, and overshoots hi by at most one step
   * (plus the half-millionth the rounding may add).
   */
  lemma GridCoversAndOvershoots(lo: real, hi: real, step: real)
    requires step > 0.0 && lo <= hi
    ensures var r := Grid(lo, hi, step);
            && r.Ok? && |r.value| >= 2
            && r.value[0] == Round6(lo)
            && hi - 0.0000005 <= r.value[|r.value| - 1] <= hi + step + 0.0000005
  {
    var q := (hi - lo) / step;
    DivMul(hi - lo, step);
    QuotientBounds(hi - lo, step, q, q.Floor);
    PointAfter(lo, step, q.Floor, hi - lo);
    assert Point(lo, step, 0) == Round6(lo);
  }

  /** The search goes to capacity, or twice the demand when none is declared, but at least to one and a half times the demand. */
  lemma ScenarioUpperIs(capacity: Option<real>, demandMean: real)
    requires demandMean >= 0.0
    ensures capacity.None? ==> ScenarioUpper(capacity, demandMean) == demandMean + demandMean
    ensures capacity.Some? ==>
      var upper := ScenarioUpper(capacity, demandMean);
      upper >= capacity.value && upper * 2.0 >= demandMean * 3.0 && (upper == capacity.value || upper * 2.0 == demandMean * 3.0)
  {
  }

  /** x is a whole number of millionths, so rounding to six places keeps it. */
  predicate Millionths(x: real) {
    (x * 1000000.0).Floor as real == x * 1000000.0
  }

  lemma RoundedGap(x: real, y: real, d: real)
    requires d >= 0.0 && y - x >= d
    ensures Round6(x) <= Round6(y)
    ensures Round6(y) - Round6(x) >= d - 0.000001
    ensures Millionths(x) && Millionths(y) ==> Round6(y) - Round6(x) >= d
  {
    Round6Monotone(x, y);
    if Millionths(x) && Millionths(y) {
      Round6OfMillionths(x);
      Round6OfMillionths(y);
    }
  }

  lemma StepsApart(step: real, i: nat, j: nat, a: real, b: real)
    requires step >= 0.0 && i < j && a == i as real * step && b == j as real * step
    ensures a + step <= b
  {
    var d := (j - i) as real * step;
    MulMonotone(1.0, (j - i) as real, step);
    assert d >= step;
    assert b == a + d;
  }

  lemma WholeSteps(q: real, step: real, span: real, k: nat)
    requires step > 0.0 && q * step == span && k as real * step <= span < k as real * step + step
    ensures q >= 0.0 && q.Floor == k
  {
    assert span >= 0.0 by {
      MulMonotone(0.0, k as real, step);
    }
    QuotientBounds(span, step, q, q.Floor);
    var n := q.Floor;
    if n < k {
      StepsApart(step, n, k, n as real * step, k as real * step);
    } else if k < n {
      StepsApart(step, k, n, k as real * step, n as real * step);
    }
    if q < 0.0 {
      MulStrict(q, 0.0, step);
    }
  }

  /** How many points a grid has: two more than whole steps fit below hi, fewer when hi lies below lo, none two steps below. */
  lemma GridSize(lo: real, hi: real, step: real, k: nat)
    requires step > 0.0
    ensures k as real * step <= hi - lo < k as real * step + step ==> |Grid(lo, hi, step).value| == k + 2
    ensures k as real * step <= lo - hi < k as real * step + step ==> |Grid(lo, hi, step).value| == if k >= 2 then 0 else 2 - k
  {
    var q := (hi - lo) / step;
    DivMul(hi - lo, step);
    if k as real * step <= hi - lo < k as real * step + step {
      WholeSteps(q, step, hi - lo, k);
    }
    if k as real * step <= lo - hi < k as real * step + step {
      WholeSteps(-q, step, lo - hi, k);
    }
  }

  lemma MillionthsSum(x: real, y: real, sum: real)
    requires Millionths(x) && Millionths(y) && sum == x + y
    ensures Millionths(sum)
  {
    var a, b := (x * 1000000.0).Floor, (y * 1000000.0).Floor;
    assert sum * 1000000.0 == (a + b) as real;
  }

  lemma {:induction false} MillionthsMultiple(lo: real, step: real, i: nat, y: real)
    requires Millionths(lo) && Millionths(step) && y == i as real * step
    ensures Millionths(lo + y)
  {
    if i == 0 {
      assert lo + y == lo;
    } else {
      var x := (i - 1) as real * step;
      assert y == x + step;
      MillionthsMultiple(lo, step, i - 1, x);
      MillionthsSum(lo + x, step, lo + y);
    }
  }

  lemma RoundedMillionths(x: real)
    requires Millionths(x)
    ensures Round6(x) == x
  {
    Round6OfMillionths(x);
  }

  /** Points in whole millionths are exact. */
  lemma ExactPoint(lo: real, step: real, i: nat, y: real)
    requires Millionths(lo) && Millionths(step) && y == i as real * step
    ensures Point(lo, step, i) == lo + y
  {
    hide Millionths, Round6;
    MillionthsMultiple(lo, step, i, y);
    RoundedMillionths(lo + y);
  }

  lemma PointSeparation(lo: real, step: real, i: nat, j: nat)
    requires step > 0.0 && i < j
    ensures Point(lo, step, i) <= Point(lo, step, j)
    ensures Point(lo, step, j) - Point(lo, step, i) >= step - 0.000001
    ensures Millionths(lo) && Millionths(step) ==> Point(lo, step, j) - Point(lo, step, i) >= step
  {
    var a, b := i as real * step, j as real * step;
    StepsApart(step, i, j, a, b);
    if Millionths(lo) && Millionths(step) {
      MillionthsMultiple(lo, step, i, a);
      MillionthsMultiple(lo, step, j, b);
    }
    RoundedGap(lo + a, lo + b, step);
  }

  /** Later grid points are never smaller, and stay a step apart up to rounding. */
  lemma GridSeparation(lo: real, hi: real, step: real, i: nat, j: nat)
    requires Grid(lo, hi, step).Ok?
    requires i < j < |Grid(lo, hi, step).value|
    ensures var g := Grid(lo, hi, step).value;
            && g[i] <= g[j]
            && g[j] - g[i] >= step - 0.000001
            && (Millionths(lo) && Millionths(step) ==> g[j] - g[i] >= step)
  {
    PointSeparation(lo, step, i, j);
  }
}
