/** Piecewise-linear joint utilities, written as an affine part plus hinges. */
module PiecewiseLinear {
  import opened Numeric

  /** weight * max(q - kink, 0). */
  datatype Hinge = Hinge(weight: real, kink: real) {
    function At(q: real): real {
      weight * Max(q - kink, 0.0)
    }
  }

  lemma OneHinge(h: Hinge, a: real, b: real, q: real, w: real)
    requires (h.kink <= a || b <= h.kink) && a <= q <= b
    ensures w * (q - a) + h.At(q) == h.At(a) + (w + if h.kink <= a then h.weight else 0.0) * (q - a)
  {
    if h.kink <= a {
      assert h.At(q) == h.weight * (q - h.kink);
      assert h.At(a) == h.weight * (a - h.kink);
    } else {
      assert h.At(q) == 0.0 && h.At(a) == 0.0;
    }
  }

  datatype Pwl = Pwl(base: real, slope: real, hinges: seq<Hinge>) {

    function HingesAt(q: real, n: nat): real
      requires n <= |hinges|
    {
      if n == 0 then 0.0 else HingesAt(q, n - 1) + hinges[n - 1].At(q)
    }

    function At(q: real): real {
      base + slope * q + HingesAt(q, |hinges|)
    }

    /** No hinge bends strictly inside (a, b). */
    ghost predicate StraightOn(a: real, b: real) {
      forall k :: 0 <= k < |hinges| ==> hinges[k].kink <= a || b <= hinges[k].kink
    }

    /** The total weight of the first n hinges already bent at a. */
    function BentWeight(a: real, n: nat): real
      requires n <= |hinges|
    {
      if n == 0 then 0.0
      else BentWeight(a, n - 1) + if hinges[n - 1].kink <= a then hinges[n - 1].weight else 0.0
    }

    lemma {:induction false} HingesStraight(a: real, b: real, q: real, n: nat)
      requires StraightOn(a, b) && a <= q <= b && n <= |hinges|
      ensures HingesAt(q, n) == HingesAt(a, n) + BentWeight(a, n) * (q - a)
    {
      hide Hinge.At;
      if n > 0 {
        HingesStraight(a, b, q, n - 1);
        var h, w, d := hinges[n - 1], BentWeight(a, n - 1), q - a;
        OneHinge(h, a, b, q, w);
        var bent, rest := BentWeight(a, n) * d, w * d;
        assert bent == (w + if h.kink <= a then h.weight else 0.0) * d;
        assert HingesAt(q, n - 1) == HingesAt(a, n - 1) + rest;
        assert rest + h.At(q) == h.At(a) + bent;
      }
    }

    /** Between a and b the function is a straight line. */
    lemma Straight(a: real, b: real, q: real)
      requires StraightOn(a, b) && a <= q <= b
      ensures At(q) == At(a) + (slope + BentWeight(a, |hinges|)) * (q - a)
    {
      HingesStraight(a, b, q, |hinges|);
      var w := BentWeight(a, |hinges|);
      assert slope * q == slope * a + slope * (q - a);
      assert (slope + w) * (q - a) == slope * (q - a) + w * (q - a);
    }

    /** So its values there never exceed both ends. */
    lemma EndsDominate(a: real, b: real, q: real)
      requires StraightOn(a, b) && a <= q <= b
      ensures At(q) <= Max(At(a), At(b))
    {
      hide At;
      Straight(a, b, q);
      Straight(a, b, b);
      var m := slope + BentWeight(a, |hinges|);
      if m >= 0.0 {
        MulMonotone(q - a, b - a, m);
      } else {
        var drop := (q - a) * -m;
        MulMonotone(0.0, q - a, -m);
        assert m * (q - a) == -drop;
      }
    }
  }

  /** Adding two piecewise-linear functions keeps them so. */
  function Plus(f: Pwl, g: Pwl): Pwl {
    Pwl(f.base + g.base, f.slope + g.slope, f.hinges + g.hinges)
  }

  lemma {:induction false} HingesPrefix(f: Pwl, g: Pwl, q: real, n: nat)
    requires n <= |f.hinges|
    ensures Plus(f, g).HingesAt(q, n) == f.HingesAt(q, n)
  {
    if n > 0 {
      HingesPrefix(f, g, q, n - 1);
    }
  }

  lemma {:induction false} HingesConcat(f: Pwl, g: Pwl, q: real, n: nat)
    requires n <= |g.hinges|
    ensures Plus(f, g).HingesAt(q, |f.hinges| + n) == f.HingesAt(q, |f.hinges|) + g.HingesAt(q, n)
  {
    if n == 0 {
      HingesPrefix(f, g, q, |f.hinges|);
    } else {
      HingesConcat(f, g, q, n - 1);
    }
  }

  lemma PlusAt(f: Pwl, g: Pwl, q: real)
    ensures Plus(f, g).At(q) == f.At(q) + g.At(q)
  {
    HingesConcat(f, g, q, |g.hinges|);
    assert |Plus(f, g).hinges| == |f.hinges| + |g.hinges|;
  }
}
