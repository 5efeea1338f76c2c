/** Finite counting arguments. */
module Counting {

  lemma {:induction false} SetBelow(s: set<nat>, n: nat)
    requires forall c :: c in s ==> c < n
    ensures |s| <= n
    decreases n
  {
    if n == 0 {
      assert s == {};
    } else {
      SetBelow(s - {n - 1}, n - 1);
    }
  }

  function Elements(codes: seq<nat>): set<nat> {
    set c | c in codes
  }

  lemma {:induction false} DistinctCount(codes: seq<nat>)
    requires forall a, b :: 0 <= a < b < |codes| ==> codes[a] != codes[b]
    ensures |Elements(codes)| == |codes|
  {
    if |codes| > 0 {
      var rest, last := codes[..|codes| - 1], codes[|codes| - 1];
      DistinctCount(rest);
      assert codes == rest + [last];
      assert Elements(codes) == Elements(rest) + {last};
    }
  }

  /** Pairwise distinct numbers below n: there are at most n of them. */
  lemma DistinctBelow(codes: seq<nat>, n: nat)
    requires forall k :: 0 <= k < |codes| ==> codes[k] < n
    requires forall a, b :: 0 <= a < b < |codes| ==> codes[a] != codes[b]
    ensures |codes| <= n
  {
    DistinctCount(codes);
    SetBelow(Elements(codes), n);
  }

  /** Row-major numbering of an n x n square. */
  function Cell(i: nat, j: nat, n: nat): nat {
    i * n + j
  }

  lemma CellBelow(i: nat, j: nat, n: nat)
    requires i < n && j < n
    ensures Cell(i, j, n) < n * n
  {
    assert (n - 1 - i) * n >= 0;
  }

  lemma CellGap(i: nat, i': nat, n: nat)
    requires i < i'
    ensures i * n + n <= i' * n
  {
    var d := i' - i - 1;
    assert i' * n == i * n + n + d * n;
    assert d * n >= 0;
  }

  lemma CellInjective(i: nat, j: nat, i': nat, j': nat, n: nat)
    requires i < n && j < n && i' < n && j' < n
    requires Cell(i, j, n) == Cell(i', j', n)
    ensures i == i' && j == j'
  {
    if i > i' {
      CellGap(i', i, n);
    } else if i < i' {
      CellGap(i, i', n);
    }
  }
}
