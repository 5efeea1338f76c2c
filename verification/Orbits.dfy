/** Repeating one step on a finite set of states, with progress measured by a strict order. */
module Orbits {
  import opened Counting

  function Orbit<T>(next: T -> T, start: T, k: nat): T {
    if k == 0 then start else next(Orbit(next, start, k - 1))
  }

  lemma {:induction false} RestStays<T>(next: T -> T, start: T, k: nat, m: nat)
    requires k <= m && Orbit(next, start, k + 1) == Orbit(next, start, k)
    ensures Orbit(next, start, m) == Orbit(next, start, k)
  {
    if k < m {
      RestStays(next, start, k, m - 1);
    }
  }

  lemma {:induction false} OrbitIn<T(!new)>(next: T -> T, start: T, inv: T -> bool, k: nat)
    requires inv(start) && forall s :: inv(s) ==> inv(next(s))
    ensures inv(Orbit(next, start, k))
  {
    if k > 0 {
      OrbitIn(next, start, inv, k - 1);
    }
  }

  /** `inv` states climb `ahead`, a strict order, at every step that moves. */
  ghost predicate Climbs<T(!new)>(next: T -> T, inv: T -> bool, ahead: (T, T) -> bool) {
    && (forall s :: inv(s) ==> inv(next(s)))
    && (forall s :: inv(s) ==> next(s) == s || ahead(s, next(s)))
    && (forall s :: !ahead(s, s))
    && (forall a, b, c :: ahead(a, b) && ahead(b, c) ==> ahead(a, c))
  }

  lemma {:induction false} MovingMeansAhead<T(!new)>(
      next: T -> T, start: T, inv: T -> bool, ahead: (T, T) -> bool, a: nat, b: nat)
    requires Climbs(next, inv, ahead) && inv(start) && a < b
    requires forall k :: a <= k < b ==> Orbit(next, start, k + 1) != Orbit(next, start, k)
    ensures ahead(Orbit(next, start, a), Orbit(next, start, b))
    decreases b
  {
    OrbitIn(next, start, inv, b - 1);
    assert Orbit(next, start, b - 1 + 1) != Orbit(next, start, b - 1);
    if a < b - 1 {
      MovingMeansAhead(next, start, inv, ahead, a, b - 1);
    }
  }

  /** With at most n distinguishable states, some step among the first n leaves the state alone. */
  lemma RestsWithin<T(!new)>(
      next: T -> T, start: T, inv: T -> bool, ahead: (T, T) -> bool, code: T -> nat, n: nat) returns (k: nat)
    requires Climbs(next, inv, ahead) && inv(start)
    requires forall s :: inv(s) ==> code(s) < n
    requires forall s, t :: inv(s) && inv(t) && code(s) == code(t) ==> s == t
    ensures k < n && Orbit(next, start, k + 1) == Orbit(next, start, k)
  {
    if forall k :: 0 <= k < n ==> Orbit(next, start, k + 1) != Orbit(next, start, k) {
      var codes: seq<nat> := seq<nat>(n + 1, k requires 0 <= k => code(Orbit(next, start, k)));
      forall a, b | 0 <= a < b < |codes|
        ensures codes[a] != codes[b]
      {
        MovingMeansAhead(next, start, inv, ahead, a, b);
        OrbitIn(next, start, inv, a);
        OrbitIn(next, start, inv, b);
      }
      forall k | 0 <= k < |codes|
        ensures codes[k] < n
      {
        OrbitIn(next, start, inv, k);
      }
      DistinctBelow(codes, n);
      assert false;
    }
    k :| 0 <= k < n && Orbit(next, start, k + 1) == Orbit(next, start, k);
  }
}
