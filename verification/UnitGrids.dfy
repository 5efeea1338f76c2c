/** The unit grid: what the candidate builder collects when everything is whole. */
module UnitGrids {
  import opened Numeric
  import opened Grids
  import opened Oracle

  predicate Whole(x: real) {
    x.Floor as real == x
  }

  function Unit(j: nat): real {
    j as real
  }

  /** The whole quantities from 0 to top, in order. */
  ghost predicate UnitGrid(grid: seq<real>, top: nat) {
    |grid| == top + 1 && forall k: nat :: k <= top ==> grid[k] == k as real
  }

  /** Ascending, nothing but whole numbers from 0 to top, and all of them. */
  ghost predicate Wholes(grid: seq<real>, top: nat) {
    && Ascending(grid)
    && (forall k :: 0 <= k < |grid| ==> 0.0 <= grid[k] <= top as real && Whole(grid[k]))
    && (forall j: nat :: j <= top ==> Unit(j) in grid)
  }

  lemma WholeBelow(x: real, y: real)
    requires Whole(x) && Whole(y) && x < y
    ensures x <= y - 1.0
  {
    var i, j := x.Floor, y.Floor;
    assert i < j;
    assert i as real <= (j - 1) as real;
  }

  /** If the first n entries count up from 0, so does the next. */
  lemma NextIsLarger(grid: seq<real>, top: nat, n: nat)
    requires Wholes(grid, top) && n < |grid| && forall k: nat :: k < n ==> grid[k] == k as real
    ensures grid[n] >= n as real
  {
    if n > 0 {
      WholeBelow(grid[n - 1], grid[n]);
    }
  }

  /** The ascending list of the whole numbers up to top counts up from 0. */
  lemma {:induction false} WholesInOrder(grid: seq<real>, top: nat, n: nat)
    requires Wholes(grid, top) && n <= top + 1
    ensures n <= |grid| && forall k: nat :: k < n ==> grid[k] == k as real
  {
    if n > 0 {
      WholesInOrder(grid, top, n - 1);
      assert Unit(n - 1) in grid;
      var i :| 0 <= i < |grid| && grid[i] == Unit(n - 1);
      NextIsLarger(grid, top, n - 1);
    }
  }

  lemma LastUnit(top: nat)
    ensures StepCount(top as real, 1.0) == top && Whole(top as real)
  {
    UnitStepCount(top as real);
  }

  lemma CandidateIsWhole(x: real, top: nat, d: real, c: real)
    requires Whole(d) && Whole(c) && IsCandidate(x, top as real, 1.0, [d, c])
    ensures 0.0 <= x <= top as real && Whole(x)
  {
    hide Point, StepCount;
    LastUnit(top);
    if i: nat :| i <= StepCount(top as real, 1.0) && x == Point(0.0, 1.0, i) {
      UnitPoint(i);
    }
  }

  /** `_candidates` at unit steps with whole breakpoints and bound is the unit grid. */
  lemma CandidatesAreUnitGrid(grid: seq<real>, top: nat, d: real, c: real)
    requires Ascending(grid) && Whole(d) && Whole(c)
    requires forall x :: x in grid <==> IsCandidate(x, top as real, 1.0, [d, c])
    ensures UnitGrid(grid, top)
  {
    hide IsCandidate;
    forall k | 0 <= k < |grid|
      ensures 0.0 <= grid[k] <= top as real && Whole(grid[k])
    {
      assert grid[k] in grid;
      CandidateIsWhole(grid[k], top, d, c);
    }
    forall j: nat | j <= top
      ensures Unit(j) in grid
    {
      WholeIsCandidate(j, top as real, [d, c]);
    }
    WholesInOrder(grid, top, top + 1);
    if |grid| > top + 1 {
      NextIsLarger(grid, top, top + 1);
      assert false;
    }
  }
}
