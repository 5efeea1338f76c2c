/** The disclosure-limited protocol: ternary directions move one shared candidate. */
module TranscriptProtocol {
  import opened Numeric
  import opened Grids

  const TOLERANCE: real := 0.001  // CONVERGENCE_TOLERANCE
  const MAX_ROUNDS: nat := 200
  const INTERVALS: int := 31      // STEP_QUANTIZATION_LEVELS - 1

  /** The k-th of the 32 levels a step may take on the wire. */
  function Level(k: int, etaMax: real): real {
    k as real / INTERVALS as real * 2.0 * etaMax - etaMax
  }

  /** `quantize_step`: clip, pick the nearest bin, send that bin's level. */
  function Quantize(raw: real, etaMax: real): real {
    if etaMax <= 0.0 then 0.0
    else
      var clipped := Max(-etaMax, Min(etaMax, raw));
      Level(RoundHalfEven((clipped + etaMax) / (2.0 * etaMax) * INTERVALS as real), etaMax)
  }

  lemma UnitFraction(clipped: real, etaMax: real, t: real)
    requires etaMax > 0.0 && -etaMax <= clipped <= etaMax && t == (clipped + etaMax) / (2.0 * etaMax)
    ensures 0.0 <= t <= 1.0 && t * (2.0 * etaMax) == clipped + etaMax
  {
    DivMul(clipped + etaMax, 2.0 * etaMax);
    if t > 1.0 {
      MulStrict(1.0, t, 2.0 * etaMax);
    }
  }

  lemma LevelError(k: int, t: real, etaMax: real, clipped: real)
    requires etaMax > 0.0 && t * 31.0 - 0.5 <= k as real <= t * 31.0 + 0.5
    requires t * (2.0 * etaMax) == clipped + etaMax
    ensures Abs(Level(k, etaMax) - clipped) <= etaMax / 31.0
  {
    var e := k as real / 31.0 - t;
    assert -1.0 / 62.0 <= e <= 1.0 / 62.0;
    var width := 2.0 * etaMax;
    ScaleBound(e, 1.0 / 62.0, width, width * e, width * (1.0 / 62.0));
    assert Level(k, etaMax) - clipped == width * e;
  }

  /** Every quantized step is one of 32 evenly spaced levels, within half a level of the clipped input. */
  lemma QuantizeToLevel(raw: real, etaMax: real) returns (k: int)
    requires etaMax > 0.0
    ensures 0 <= k <= INTERVALS && Quantize(raw, etaMax) == Level(k, etaMax)
    ensures Abs(Quantize(raw, etaMax) - Max(-etaMax, Min(etaMax, raw))) <= etaMax / INTERVALS as real
  {
    var clipped := Max(-etaMax, Min(etaMax, raw));
    var t := (clipped + etaMax) / (2.0 * etaMax);
    hide Level;
    UnitFraction(clipped, etaMax, t);
    k := RoundHalfEven(t * INTERVALS as real);
    LevelError(k, t, etaMax, clipped);
  }

  /** The party always proposes the full scheduled step, and quantization leaves it exact. */
  lemma FullStepIsExact(eta: real)
    requires eta >= 0.0
    ensures Quantize(eta, eta) == eta
  {
    if eta > 0.0 {
      assert (eta + eta) / (2.0 * eta) == 1.0;
      RoundOfInteger(31);
    }
  }

  /** `party_gradient_direction` for one coordinate and a unit difference. */
  function Direction(u: Utility, q: real): (d: int)
    ensures -1 <= d <= 1
  {
    var diff := u(Max(0.0, q + 1.0)) - u(Max(0.0, q - 1.0));
    if diff > TOLERANCE then 1 else if diff < -TOLERANCE then -1 else 0
  }

  datatype Outcome = Outcome(allocation: real, rounds: nat, converged: bool, residual: real)

  lemma OneTerm(w: real, d: int, step: real)
    requires -1 <= d <= 1 && step >= 0.0
    ensures Abs(w * d as real * step) <= Abs(w) * step
  {
    if d == 0 {
      assert w * d as real * step == 0.0;
      assert Abs(w) * step >= 0.0;
    } else if d == 1 {
      assert w * d as real * step == w * step;
      AbsScale(step, w, w * step);
    } else {
      assert w * d as real * step == -(w * step);
      AbsScale(step, w, w * step);
    }
  }

  datatype Protocol = Protocol(us: seq<Utility>, weights: seq<real>, upper: real, eta: nat -> real) {

    ghost predicate Valid() {
      |weights| == |us| && upper >= 0.0 && forall t: nat :: eta(t) >= 0.0
    }

    function Step(t: nat): real {
      Quantize(eta(t), eta(t))
    }

    /** The weighted sum of the first n directions, in steps. */
    function Delta(q: real, step: real, n: nat): real
      requires n <= |us| == |weights|
    {
      if n == 0 then 0.0
      else Delta(q, step, n - 1) + weights[n - 1] * Direction(us[n - 1], q) as real * step
    }

    function Clip(x: real): real {
      Max(0.0, Min(upper, x))
    }

    function Next(q: real, t: nat): real
      requires |us| == |weights|
    {
      Clip(q + Delta(q, Step(t), |us|))
    }

    /** The candidate at the start of round t. */
    function At(initial: real, t: nat): real
      requires |us| == |weights|
    {
      if t == 0 then initial else Next(At(initial, t - 1), t - 1)
    }

    predicate AllZero(q: real) {
      forall p :: 0 <= p < |us| ==> Direction(us[p], q) == 0
    }

    predicate Stops(initial: real, t: nat)
      requires |us| == |weights|
    {
      AllZero(At(initial, t)) || Abs(At(initial, t + 1) - At(initial, t)) < TOLERANCE
    }

    /** A round stops the run when no party wants to move, or the candidate moves by less than a thousandth. */
    lemma StopsIs(initial: real, t: nat)
      requires |us| == |weights|
      ensures Stops(initial, t) <==>
        || (forall p :: 0 <= p < |us| ==> Direction(us[p], At(initial, t)) == 0)
        || -0.001 < At(initial, t + 1) - At(initial, t) < 0.001
    {
      hide At, Direction;
    }

    /** A party points up or down when that gains it more than a thousandth over the other side, a unit away each, cut off at zero. */
    lemma DirectionIs(u: Utility, q: real)
      ensures Direction(u, q) == 1 <==> u(Max(0.0, q + 1.0)) > u(Max(0.0, q - 1.0)) + 0.001
      ensures Direction(u, q) == -1 <==> u(Max(0.0, q - 1.0)) > u(Max(0.0, q + 1.0)) + 0.001
    {
    }

    method AggregateNext(q: real, directions: seq<int>, step: real) returns (next: real)
      requires |us| == |weights| == |directions|
      requires forall p :: 0 <= p < |us| ==> directions[p] == Direction(us[p], q)
      ensures next == Clip(q + Delta(q, step, |us|))
    {
      hide Direction;
      var delta := 0.0;
      for p := 0 to |us|
        invariant delta == Delta(q, step, p)
      {
        delta := delta + weights[p] * directions[p] as real * step;
      }
      next := Max(0.0, Min(upper, q + delta));
    }

    /** One round of messages: either every direction is zero, or the aggregator moves. */
    method PlayRound(q: real, t: nat) returns (zero: bool, next: real)
      requires |us| == |weights|
      ensures zero == AllZero(q)
      ensures next == if zero then q else Next(q, t)
    {
      hide Direction, Clip, Delta;
      var directions := seq(|us|, p requires 0 <= p < |us| => Direction(us[p], q));
      assert forall p :: 0 <= p < |us| ==> Direction(us[p], q) == directions[p];
      assert forall p :: 0 <= p < |us| ==> directions[p] == Direction(us[p], q);
      zero := forall p :: 0 <= p < |us| ==> directions[p] == 0;
      next := q;
      if !zero {
        next := AggregateNext(q, directions, Quantize(eta(t), eta(t)));
      }
    }

    method Run(initial: real) returns (o: Outcome)
      requires |us| == |weights|
      ensures 1 <= o.rounds <= 200
      ensures forall t: nat :: t < o.rounds - 1 ==> !Stops(initial, t)
      ensures o.converged <==> Stops(initial, o.rounds - 1)
      ensures !o.converged ==> o.rounds == 200
      ensures AllZero(At(initial, o.rounds - 1)) ==> o.allocation == At(initial, o.rounds - 1) && o.residual == 0.0
      ensures !AllZero(At(initial, o.rounds - 1)) ==>
        o.allocation == At(initial, o.rounds) && o.residual == Abs(At(initial, o.rounds) - At(initial, o.rounds - 1))
    {
      hide Next, AllZero;
      var candidate := initial;
      var residual := 0.0;
      for t := 0 to MAX_ROUNDS
        invariant candidate == At(initial, t)
        invariant forall s: nat :: s < t ==> !Stops(initial, s)
        invariant t > 0 ==> residual == Abs(At(initial, t) - At(initial, t - 1)) && !AllZero(At(initial, t - 1))
      {
        var zero, next := PlayRound(candidate, t);
        if zero {
          return Outcome(candidate, t + 1, true, 0.0);
        }
        residual := Abs(next - candidate);
        candidate := next;
        if residual < TOLERANCE {
          return Outcome(candidate, t + 1, true, residual);
        }
        assert !Stops(initial, t);
      }
      o := Outcome(candidate, MAX_ROUNDS, false, residual);
    }

    // ---- range and speed

    lemma {:induction false} CandidatesStayInRange(initial: real, t: nat)
      requires |us| == |weights| && 0.0 <= initial <= upper
      ensures 0.0 <= At(initial, t) <= upper
    {
    }

    function WeightSum(n: nat): real
      requires n <= |weights|
    {
      if n == 0 then 0.0 else WeightSum(n - 1) + Abs(weights[n - 1])
    }

    lemma {:induction false} DeltaBounded(q: real, step: real, n: nat)
      requires n <= |us| == |weights| && step >= 0.0
      ensures Abs(Delta(q, step, n)) <= WeightSum(n) * step
    {
      if n > 0 {
        hide Direction;
        DeltaBounded(q, step, n - 1);
        OneTerm(weights[n - 1], Direction(us[n - 1], q), step);
        assert WeightSum(n) * step == WeightSum(n - 1) * step + Abs(weights[n - 1]) * step;
      } else {
        assert WeightSum(0) * step == 0.0;
      }
    }

    /** Each move is at most the weights' total times the scheduled step. */
    lemma MoveBounded(initial: real, t: nat)
      requires Valid() && 0.0 <= initial <= upper
      ensures Abs(At(initial, t + 1) - At(initial, t)) <= WeightSum(|weights|) * eta(t)
    {
      hide Delta, Quantize, WeightSum;
      var q := At(initial, t);
      CandidatesStayInRange(initial, t);
      FullStepIsExact(eta(t));
      DeltaBounded(q, Step(t), |us|);
    }
  }

  // ---- concave utilities

  /** Slopes never rise along x < y < z. */
  ghost predicate Slopes(u: Utility, x: real, y: real, z: real) {
    (u(z) - u(y)) * (y - x) <= (u(y) - u(x)) * (z - y)
  }

  ghost predicate ConcaveUtility(u: Utility) {
    forall x, y, z {:trigger Slopes(u, x, y, z)} :: 0.0 <= x < y < z ==> Slopes(u, x, y, z)
  }

  /** Wanting more at q: everything a unit or more below q is strictly worse than q. */
  lemma UpMeansWorseBelow(u: Utility, q: real, x: real)
    requires ConcaveUtility(u) && q >= 0.0 && Direction(u, q) == 1 && 0.0 <= x <= q - 1.0
    ensures u(x) < u(q)
  {
    assert Slopes(u, q - 1.0, q, q + 1.0);
    var rise := u(q) - u(q - 1.0);
    assert rise > 0.0;
    if x < q - 1.0 {
      assert Slopes(u, x, q - 1.0, q);
      MulStrict(0.0, rise, q - 1.0 - x);
    }
  }

  lemma StillFalling(fall: real, later: real, d: real)
    requires fall < 0.0 && d > 0.0 && later * 1.0 <= fall * d
    ensures later < 0.0
  {
    MulStrict(fall, 0.0, d);
  }

  lemma FallAfter(rise: real, fall: real, gap: real)
    requires 0.0 < gap && rise + fall < 0.0 && fall * gap <= rise
    ensures fall < 0.0
  {
    if fall >= 0.0 {
      MulMonotone(0.0, fall, gap);
    }
  }

  /** Wanting less at q: everything a unit or more above q is strictly worse than q. */
  lemma DownMeansWorseAbove(u: Utility, q: real, x: real)
    requires ConcaveUtility(u) && q >= 0.0 && Direction(u, q) == -1 && x >= q + 1.0
    ensures u(x) < u(q)
  {
    var below := Max(0.0, q - 1.0);
    var fall := u(q + 1.0) - u(q);
    assert u(q + 1.0) < u(below);
    if below < q {
      assert Slopes(u, below, q, q + 1.0);
      FallAfter(u(q) - u(below), fall, q - below);
    }
    assert fall < 0.0;
    if x > q + 1.0 {
      assert Slopes(u, q, q + 1.0, x);
      StillFalling(fall, u(x) - u(q + 1.0), x - q - 1.0);
    }
  }

  /** A later change of at most `slope` per unit, where the slope is at most `rate`. */
  lemma SmallSlope(slope: real, later: real, d: real, rate: real)
    requires slope <= rate && d >= 0.0 && later <= slope * d
    ensures slope + later <= rate * (d + 1.0)
  {
    MulMonotone(slope, rate, d);
  }

  /** The width of the window a direction looks across, narrower near zero where it is cut off. */
  function Window(q: real): real {
    Min(2.0, q + 1.0)
  }

  lemma ZeroInside(u: Utility, q: real, x: real)
    requires ConcaveUtility(u) && q >= 1.0 && Direction(u, q) == 0 && 0.0 <= x && Abs(x - q) >= 1.0
    ensures u(x) <= u(q) + TOLERANCE / 2.0 * Abs(x - q)
  {
    assert Slopes(u, q - 1.0, q, q + 1.0);
    var a, b := u(q) - u(q - 1.0), u(q + 1.0) - u(q);
    assert b <= a && -TOLERANCE <= a + b <= TOLERANCE;
    if x <= q - 1.0 {
      var d := q - 1.0 - x;
      if d > 0.0 {
        assert Slopes(u, x, q - 1.0, q);
        assert u(x) - u(q - 1.0) <= -a * d;
      }
      SmallSlope(-a, u(x) - u(q - 1.0), d, TOLERANCE / 2.0);
    } else {
      var d := x - q - 1.0;
      if d > 0.0 {
        assert Slopes(u, q, q + 1.0, x);
        assert u(x) - u(q + 1.0) <= b * d;
      }
      SmallSlope(b, u(x) - u(q + 1.0), d, TOLERANCE / 2.0);
    }
  }

  lemma SlopesOf(u: Utility, x: real, y: real, z: real)
    requires ConcaveUtility(u) && 0.0 <= x < y < z
    ensures Slopes(u, x, y, z)
  {
  }

  lemma AverageRate(s: real, before: real, q: real, rate: real)
    requires 0.0 <= q && s * q <= before && s + before <= TOLERANCE && rate == TOLERANCE / (q + 1.0)
    ensures s <= rate
  {
    DivMul(TOLERANCE, q + 1.0);
    if rate < s {
      MulStrict(rate, s, q + 1.0);
    }
  }

  /** The last unit of the cut-off window rises at most at the window's average rate. */
  lemma LastUnitSlope(u: Utility, q: real, rate: real)
    requires ConcaveUtility(u) && 0.0 <= q < 1.0 && Direction(u, q) == 0 && rate == TOLERANCE / (q + 1.0)
    ensures u(q + 1.0) - u(q) <= rate
  {
    hide ConcaveUtility;
    var s, before := u(q + 1.0) - u(q), u(q) - u(0.0);
    if q > 0.0 {
      SlopesOf(u, 0.0, q, q + 1.0);
    }
    AverageRate(s, before, q, rate);
  }

  /** Below one unit the window starts at zero, and only larger quantities are a unit away. */
  lemma ZeroNearBound(u: Utility, q: real, x: real)
    requires ConcaveUtility(u) && 0.0 <= q < 1.0 && Direction(u, q) == 0 && 0.0 <= x && Abs(x - q) >= 1.0
    ensures u(x) <= u(q) + TOLERANCE / (q + 1.0) * Abs(x - q)
  {
    hide ConcaveUtility;
    var s, d, rate := u(q + 1.0) - u(q), x - q - 1.0, TOLERANCE / (q + 1.0);
    LastUnitSlope(u, q, rate);
    if d > 0.0 {
      assert Slopes(u, q, q + 1.0, x) by { SlopesOf(u, q, q + 1.0, x); }
    }
    SmallSlope(s, u(x) - u(q + 1.0), d, rate);
  }

  /** Indifference at q: nothing a unit or more away gains more than 1e-3 per window width. */
  lemma ZeroMeansLittleToGain(u: Utility, q: real, x: real)
    requires ConcaveUtility(u) && q >= 0.0 && Direction(u, q) == 0 && 0.0 <= x && Abs(x - q) >= 1.0
    ensures u(x) <= u(q) + TOLERANCE / Window(q) * Abs(x - q)
  {
    if q >= 1.0 {
      ZeroInside(u, q, x);
    } else {
      ZeroNearBound(u, q, x);
    }
  }

  // ---- where runs stop

  /** The sum of the first n directions. */
  function Votes(us: seq<Utility>, q: real, n: nat): int
    requires n <= |us|
  {
    if n == 0 then 0 else Votes(us, q, n - 1) + Direction(us[n - 1], q)
  }

  lemma {:induction false} UnitWeightsVote(p: Protocol, q: real, step: real, n: nat)
    requires n <= |p.us| == |p.weights| && forall k :: 0 <= k < |p.weights| ==> p.weights[k] == 1.0
    ensures p.Delta(q, step, n) == Votes(p.us, q, n) as real * step
  {
    if n > 0 {
      hide Direction;
      UnitWeightsVote(p, q, step, n - 1);
      var v, d := Votes(p.us, q, n - 1), Direction(p.us[n - 1], q);
      assert (v + d) as real * step == v as real * step + d as real * step;
    }
  }

  /** A vote that is not negative is all zeros or has someone voting up, and the mirror image. */
  lemma {:induction false} VotersExist(us: seq<Utility>, q: real, n: nat)
    requires n <= |us|
    ensures Votes(us, q, n) > 0 ==> exists k :: 0 <= k < n && Direction(us[k], q) == 1
    ensures Votes(us, q, n) < 0 ==> exists k :: 0 <= k < n && Direction(us[k], q) == -1
    ensures Votes(us, q, n) == 0 && (exists k :: 0 <= k < n && Direction(us[k], q) != 0) ==>
      (exists k :: 0 <= k < n && Direction(us[k], q) == 1) && (exists k :: 0 <= k < n && Direction(us[k], q) == -1)
  {
    if n > 0 {
      hide Direction;
      VotersExist(us, q, n - 1);
    }
  }

  ghost predicate SomeoneVotes(us: seq<Utility>, q: real, d: int) {
    exists k :: 0 <= k < |us| && Direction(us[k], q) == d
  }

  lemma ClippedUp(p: Protocol, q: real, delta: real)
    requires 0.0 <= q <= p.upper && delta >= TOLERANCE && Abs(p.Clip(q + delta) - q) < TOLERANCE
    ensures q + 1.0 > p.upper
  {
  }

  lemma ClippedDown(p: Protocol, q: real, delta: real)
    requires 0.0 <= q <= p.upper && delta <= -TOLERANCE && Abs(p.Clip(q + delta) - q) < TOLERANCE
    ensures q < 1.0
  {
  }

  lemma WholeStep(votes: int, step: real, delta: real)
    requires votes > 0 && step >= 0.0 && delta == votes as real * step
    ensures delta >= step
  {
    var more: real := votes as real - 1.0;
    MulMonotone(0.0, more, step);
    assert delta == more * step + step;
  }

  /** A small move with a full-size step means cancelling votes or a candidate pressed on a bound. */
  lemma SmallMoveCases(p: Protocol, q: real, t: nat)
    requires |p.us| == |p.weights| && forall k :: 0 <= k < |p.weights| ==> p.weights[k] == 1.0
    requires 0.0 <= q <= p.upper && p.eta(t) >= TOLERANCE
    requires !p.AllZero(q) && Abs(p.Next(q, t) - q) < TOLERANCE
    ensures q + 1.0 > p.upper || SomeoneVotes(p.us, q, -1)
    ensures q < 1.0 || SomeoneVotes(p.us, q, 1)
  {
    hide Direction, Quantize, Protocol.Delta, Protocol.Clip;
    var step, v := p.Step(t), Votes(p.us, q, |p.us|);
    FullStepIsExact(p.eta(t));
    UnitWeightsVote(p, q, step, |p.us|);
    VotersExist(p.us, q, |p.us|);
    var delta := v as real * step;
    assert p.Delta(q, step, |p.us|) == delta;
    assert p.Next(q, t) == p.Clip(q + delta);
    if v > 0 {
      WholeStep(v, step, delta);
      ClippedUp(p, q, delta);
    } else if v < 0 {
      WholeStep(-v, step, -delta);
      ClippedDown(p, q, delta);
    }
  }

  /**
   * Any number of concave unit-weight parties: if a round's move is below tolerance although
   * some party still has a direction, then no quantity in range at distance one or more leaves
   * every party at least as well off as the candidate of that round.
   */
  lemma StopIsPareto(p: Protocol, initial: real, t: nat, x: real)
    requires p.Valid() && (forall k :: 0 <= k < |p.weights| ==> p.weights[k] == 1.0)
    requires 0.0 <= initial <= p.upper && p.eta(t) >= TOLERANCE
    requires forall k :: 0 <= k < |p.us| ==> ConcaveUtility(p.us[k])
    requires !p.AllZero(p.At(initial, t)) && Abs(p.At(initial, t + 1) - p.At(initial, t)) < TOLERANCE
    requires 0.0 <= x <= p.upper && Abs(x - p.At(initial, t)) >= 1.0
    ensures exists k :: 0 <= k < |p.us| && p.us[k](x) < p.us[k](p.At(initial, t))
  {
    hide Direction, ConcaveUtility, Protocol.Next;
    var q := p.At(initial, t);
    p.CandidatesStayInRange(initial, t);
    SmallMoveCases(p, q, t);
    if x < q {
      var k :| 0 <= k < |p.us| && Direction(p.us[k], q) == 1;
      UpMeansWorseBelow(p.us[k], q, x);
    } else {
      var k :| 0 <= k < |p.us| && Direction(p.us[k], q) == -1;
      DownMeansWorseAbove(p.us[k], q, x);
    }
  }

  /** When every direction is zero, no party can gain more than 1e-3 per window width by moving away. */
  lemma ZeroStopIsNearOptimal(p: Protocol, initial: real, t: nat, x: real, k: nat)
    requires p.Valid() && p.AllZero(p.At(initial, t)) && p.At(initial, t) >= 0.0
    requires k < |p.us| && ConcaveUtility(p.us[k])
    requires 0.0 <= x && Abs(x - p.At(initial, t)) >= 1.0
    ensures p.us[k](x) <= p.us[k](p.At(initial, t)) + TOLERANCE / Window(p.At(initial, t)) * Abs(x - p.At(initial, t))
  {
    hide Direction, ConcaveUtility;
    ZeroMeansLittleToGain(p.us[k], p.At(initial, t), x);
  }
}
