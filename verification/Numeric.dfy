/** Rounding, truncation and finite sums over exact reals. */
module Numeric {

  datatype Option<+T> = None | Some(value: T)

  datatype Result<+T, +E> = Ok(value: T) | Err(error: E)

  function Abs(x: real): real {
    if x < 0.0 then -x else x
  }

  function Max(x: real, y: real): real {
    if x < y then y else x
  }

  function Min(x: real, y: real): real {
    if y < x then y else x
  }

  /** Python's `int(x)`: truncation toward zero. */
  function Trunc(x: real): int {
    if x >= 0.0 then x.Floor else -((-x).Floor)
  }

  /** Python's `round(x)`: the nearest integer, halves to even. */
  function RoundHalfEven(x: real): (r: int)
    ensures r as real - 0.5 <= x <= r as real + 0.5
    ensures x == r as real + 0.5 || x == r as real - 0.5 ==> r % 2 == 0
  {
    var f := x.Floor;
    var d := x - f as real;
    if d < 0.5 then f
    else if d > 0.5 then f + 1
    else if f % 2 == 0 then f
    else f + 1
  }

  lemma RoundOfInteger(n: int)
    ensures RoundHalfEven(n as real) == n
  {
  }

  lemma RoundMonotone(x: real, y: real)
    requires x <= y
    ensures RoundHalfEven(x) <= RoundHalfEven(y)
  {
  }

  /** Python's `round(x, 6)`. */
  function Round6(x: real): (r: real)
    ensures x - 0.0000005 <= r <= x + 0.0000005
  {
    RoundHalfEven(x * 1000000.0) as real / 1000000.0
  }

  lemma Round6Monotone(x: real, y: real)
    requires x <= y
    ensures Round6(x) <= Round6(y)
  {
    RoundMonotone(x * 1000000.0, y * 1000000.0);
  }

  /** Whole multiples of a millionth are left alone by `round(x, 6)`. */
  lemma Round6OfMillionths(x: real)
    requires (x * 1000000.0).Floor as real == x * 1000000.0
    ensures Round6(x) == x
  {
    RoundOfInteger((x * 1000000.0).Floor);
  }

  // ---- products, stated once for the solver

  lemma MulMonotone(a: real, b: real, s: real)
    requires a <= b && s >= 0.0
    ensures a * s <= b * s
  {
    assert (b - a) * s >= 0.0;
  }

  lemma MulStrict(a: real, b: real, s: real)
    requires a < b && s > 0.0
    ensures a * s < b * s
  {
    assert (b - a) * s > 0.0;
  }

  lemma MulBoth(a: real, b: real, c: real, d: real)
    requires 0.0 <= a <= b && 0.0 <= c <= d
    ensures a * c <= b * d
  {
    MulMonotone(a, b, c);
    MulMonotone(c, d, b);
  }

  lemma ScaleBound(x: real, bound: real, factor: real, y: real, scaled: real)
    requires -bound <= x <= bound && factor >= 0.0
    requires y == factor * x && scaled == factor * bound
    ensures -scaled <= y <= scaled
  {
    assert factor * (bound - x) >= 0.0;
    assert factor * (bound + x) >= 0.0;
  }

  lemma AbsScale(k: real, x: real, y: real)
    requires y == k * x
    ensures Abs(y) == Abs(k) * Abs(x)
  {
  }

  lemma MaxScale(k: real, a: real, b: real, ka: real, kb: real)
    requires k >= 0.0 && ka == k * a && kb == k * b
    ensures Max(ka, kb) == k * Max(a, b)
  {
    if a < b {
      MulMonotone(a, b, k);
    } else {
      MulMonotone(b, a, k);
    }
  }

  lemma DivMul(x: real, d: real)
    requires d != 0.0
    ensures x / d * d == x
    ensures d > 0.0 && x >= 0.0 ==> x / d >= 0.0
  {
    var r := x / d;
    assert r * d == x;
    if d > 0.0 && r < 0.0 {
      MulStrict(r, 0.0, d);
    }
  }

  // ---- sums over the first n elements of a sequence

  function SumTo(s: seq<real>, n: nat): real
    requires n <= |s|
  {
    if n == 0 then 0.0 else SumTo(s, n - 1) + s[n - 1]
  }

  function Sum(s: seq<real>): real {
    SumTo(s, |s|)
  }

  lemma SumIsSumTo(s: seq<real>)
    ensures Sum(s) == SumTo(s, |s|)
  {
  }

  /** Python's `_mean` and `sum(qs) / len(qs)`. */
  function Mean(s: seq<real>): real
    requires |s| > 0
  {
    Sum(s) / |s| as real
  }

  /** a*s + b*t + c, element by element, sums the same way. */
  lemma {:induction false} SumLinear(r: seq<real>, a: real, s: seq<real>, b: real, t: seq<real>, c: real, n: nat)
    requires n <= |r| && n <= |s| && n <= |t|
    requires forall i :: 0 <= i < n ==> r[i] == a * s[i] + b * t[i] + c
    ensures SumTo(r, n) == a * SumTo(s, n) + b * SumTo(t, n) + c * n as real
  {
    if n > 0 {
      SumLinear(r, a, s, b, t, c, n - 1);
    }
  }

  function Multiplied(k: real, s: seq<real>): (r: seq<real>)
    ensures |r| == |s|
  {
    seq(|s|, i requires 0 <= i < |s| => k * s[i])
  }

  lemma SumMultiplied(k: real, s: seq<real>)
    ensures Sum(Multiplied(k, s)) == k * Sum(s)
  {
    SumLinear(Multiplied(k, s), k, s, 0.0, s, 0.0, |s|);
  }

  /** a - b - c - d, each shifted by the same amount. */
  lemma {:induction false} SumOfParts(r: seq<real>, a: seq<real>, b: seq<real>, c: seq<real>, d: seq<real>, shift: real, n: nat)
    requires |r| == |a| == |b| == |c| == |d| && n <= |r|
    requires forall i :: 0 <= i < n ==> r[i] == a[i] - b[i] - c[i] - d[i] + shift
    ensures SumTo(r, n) == SumTo(a, n) - SumTo(b, n) - SumTo(c, n) - SumTo(d, n) + shift * n as real
  {
    if n > 0 {
      SumOfParts(r, a, b, c, d, shift, n - 1);
      assert shift * n as real == shift * (n - 1) as real + shift;
    }
  }

  lemma {:induction false} SumMonotone(s: seq<real>, t: seq<real>, n: nat)
    requires n <= |s| && n <= |t|
    requires forall i :: 0 <= i < n ==> s[i] <= t[i]
    ensures SumTo(s, n) <= SumTo(t, n)
  {
    if n > 0 {
      SumMonotone(s, t, n - 1);
    }
  }

  lemma {:induction false} SumConstant(s: seq<real>, c: real, n: nat)
    requires n <= |s|
    requires forall i :: 0 <= i < n ==> s[i] == c
    ensures SumTo(s, n) == c * n as real
  {
    if n > 0 {
      SumConstant(s, c, n - 1);
    }
  }

  lemma {:induction false} SumNonNegative(s: seq<real>, n: nat)
    requires n <= |s|
    requires forall i :: 0 <= i < n ==> s[i] >= 0.0
    ensures SumTo(s, n) >= 0.0
    ensures forall i :: 0 <= i < n ==> s[i] <= SumTo(s, n)
  {
    if n > 0 {
      SumNonNegative(s, n - 1);
    }
  }

  /** The largest absolute value among the first n elements. */
  function MaxAbs(s: seq<real>, n: nat): (m: real)
    requires n <= |s|
    ensures m >= 0.0
  {
    if n == 0 then 0.0 else Max(MaxAbs(s, n - 1), Abs(s[n - 1]))
  }

  lemma {:induction false} MaxAbsIsLargest(s: seq<real>, n: nat)
    requires n <= |s|
    ensures forall i :: 0 <= i < n ==> Abs(s[i]) <= MaxAbs(s, n)
    ensures n > 0 ==> exists i :: 0 <= i < n && Abs(s[i]) == MaxAbs(s, n)
  {
    if n > 0 {
      MaxAbsIsLargest(s, n - 1);
      if MaxAbs(s, n) == Abs(s[n - 1]) {
      } else {
        var i :| 0 <= i < n - 1 && Abs(s[i]) == MaxAbs(s, n - 1);
        assert Abs(s[i]) == MaxAbs(s, n);
      }
    }
  }
}
