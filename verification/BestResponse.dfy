/** Alternating best response: each of two participants replies to the other's last quantity. */
module BestResponse {
  import opened Numeric
  import opened Grids
  import opened Counting
  import opened Orbits

  /** Grid indices of the two participants' quantities. */
  datatype Pair = Pair(i: nat, j: nat)

  datatype Record = Record(quantities: seq<real>, consensus: real, residual: real)

  /** `proximity_weight * (q - target) ** 2`. */
  function Quadratic(w: real): (real, real) -> real {
    (q, target) => w * ((q - target) * (q - target))
  }

  lemma QuadraticSymmetric(w: real)
    ensures forall a, b :: Quadratic(w)(a, b) == Quadratic(w)(b, a)
  {
  }

  /** A grid, two utilities, and the penalty on the distance between the two quantities. */
  datatype Game = Game(grid: seq<real>, u1: Utility, u2: Utility, penalty: (real, real) -> real) {

    /** `proximal_objective`: local utility minus the penalty for leaving the target. */
    function Prox(u: Utility, target: real): Utility {
      q => u(q) - penalty(q, target)
    }

    function Reply(u: Utility, target: real): nat
      requires |grid| > 0
    {
      FirstMax(grid, Prox(u, target))
    }

    ghost predicate In(s: Pair) {
      s.i < |grid| && s.j < |grid|
    }

    function Start(): (s: Pair)
      requires |grid| > 0
      ensures In(s)
    {
      Pair(FirstMax(grid, u1), FirstMax(grid, u2))
    }

    /** The first participant replies to the second's old quantity, then the second to the new one. */
    function Sweep(s: Pair): (t: Pair)
      requires |grid| > 0 && In(s)
      ensures In(t)
    {
      var i := Reply(u1, grid[s.j]);
      Pair(i, Reply(u2, grid[i]))
    }

    /** The sweep on states, leaving pairs that name no grid point alone. */
    function Next(): Pair -> Pair {
      (s: Pair) => if |grid| > 0 && s.i < |grid| && s.j < |grid| then Sweep(s) else s
    }

    function After(k: nat): (s: Pair)
      requires |grid| > 0
      ensures In(s)
    {
      if k == 0 then Start() else Sweep(After(k - 1))
    }

    lemma {:induction false} AfterIsOrbit(k: nat)
      requires |grid| > 0
      ensures After(k) == Orbit(Next(), Start(), k)
    {
      hide FirstMax, FirstMaxTo;
      if k > 0 {
        AfterIsOrbit(k - 1);
      }
    }

    function Values(s: Pair): seq<real>
      requires In(s)
    {
      [grid[s.i], grid[s.j]]
    }

    function RecordOf(s: Pair): Record
      requires In(s)
    {
      var qs := Values(s);
      Record(qs, Mean(qs), Max(Abs(qs[0] - Mean(qs)), Abs(qs[1] - Mean(qs))))
    }

    /** The records of the first k sweeps. */
    function Trace(k: nat): (records: seq<Record>)
      requires |grid| > 0
      ensures |records| == k
    {
      if k == 0 then [] else Trace(k - 1) + [RecordOf(After(k))]
    }

    /** Both participants' utilities less the penalty on their disagreement. */
    function Potential(s: Pair): real
      requires In(s)
    {
      u1(grid[s.i]) + u2(grid[s.j]) - penalty(grid[s.i], grid[s.j])
    }

    /** t strictly follows s: more potential, or equal potential at smaller quantities. */
    ghost predicate Ahead(s: Pair, t: Pair)
      requires In(s) && In(t)
    {
      || Potential(s) < Potential(t)
      || (Potential(s) == Potential(t) && t.i + t.j < s.i + s.j)
    }

    /** One pass over the participants, updating the quantities in place. */
    method SweepOnce(q: seq<real>, ghost s: Pair) returns (quantities: seq<real>)
      requires |grid| > 0 && In(s) && q == Values(s)
      ensures quantities == Values(Sweep(s))
    {
      var us := [u1, u2];
      quantities := q;
      for p := 0 to 2
        invariant |quantities| == 2
        invariant quantities[0] == grid[if p == 0 then s.i else Sweep(s).i]
        invariant quantities[1] == grid[if p < 2 then s.j else Sweep(s).j]
      {
        var best := Argmax(grid, Prox(us[p], quantities[1 - p]));
        quantities := quantities[p := best];
      }
    }

    method RecordRound(quantities: seq<real>, ghost s: Pair) returns (record: Record)
      requires In(s) && quantities == Values(s)
      ensures record == RecordOf(s)
    {
      var consensus := Mean(quantities);
      var residual := Max(Abs(quantities[0] - consensus), Abs(quantities[1] - consensus));
      record := Record(quantities, consensus, residual);
    }

    lemma {:induction false} TraceAt(k: nat, t: nat)
      requires |grid| > 0 && t < k
      ensures Trace(k)[t] == RecordOf(After(t + 1))
    {
      hide After, RecordOf;
      if t < k - 1 {
        TraceAt(k - 1, t);
      }
    }

    /** What a record says: the two quantities, their midpoint and half their distance. */
    lemma RecordIs(s: Pair)
      requires In(s)
      ensures var r := RecordOf(s); var a, b := grid[s.i], grid[s.j];
              r.quantities == [a, b] && r.consensus == (a + b) / 2.0 && r.residual == Abs(a - b) / 2.0
    {
      var qs := Values(s);
      assert SumTo(qs, 1) == qs[0];
      assert Sum(qs) == qs[0] + qs[1];
      assert Mean(qs) == (qs[0] + qs[1]) / 2.0;
    }

    /** The loop over sweeps with its early stop; at least one sweep is needed for a last record. */
    method Run(maxIter: nat, tolerance: real) returns (records: seq<Record>, converged: bool)
      requires |grid| > 0 && maxIter > 0
      ensures 0 < |records| <= maxIter
      ensures records == Trace(|records|)
      ensures forall t :: 0 <= t < |records| - 1 ==> records[t].residual > tolerance
      ensures converged == (records[|records| - 1].residual <= tolerance)
      ensures !converged ==> |records| == maxIter
    {
      hide FirstMaxTo, Reply, RecordOf;
      var q1 := Argmax(grid, u1);
      var q2 := Argmax(grid, u2);
      var quantities := [q1, q2];
      records, converged := [], false;
      for iteration := 0 to maxIter
        invariant quantities == Values(After(iteration))
        invariant records == Trace(iteration) && |records| == iteration && !converged
        invariant forall t :: 0 <= t < iteration ==> records[t].residual > tolerance
      {
        quantities := SweepOnce(quantities, After(iteration));
        var record := RecordRound(quantities, After(iteration + 1));
        records := records + [record];
        if record.residual <= tolerance {
          converged := true;
          break;
        }
      }
    }

    // ---- progress

    /** One participant's reply, seen through the potential. */
    lemma FirstReplyClimbs(s: Pair)
      requires |grid| > 0 && In(s)
      requires forall a, b :: penalty(a, b) == penalty(b, a)
      ensures var t := Pair(Reply(u1, grid[s.j]), s.j);
              In(t) && (Potential(s) < Potential(t) || (Potential(s) == Potential(t) && t.i <= s.i))
    {
      var f := Prox(u1, grid[s.j]);
      FirstMaxIsFirst(grid, f);
      assert f(grid[s.i]) <= f(grid[Reply(u1, grid[s.j])]);
    }

    lemma Swap(x: real, y: real)
      requires forall a, b :: penalty(a, b) == penalty(b, a)
      ensures penalty(x, y) == penalty(y, x)
    {
    }

    lemma SecondReplyClimbs(s: Pair)
      requires |grid| > 0 && In(s)
      requires forall a, b :: penalty(a, b) == penalty(b, a)
      ensures var t := Pair(s.i, Reply(u2, grid[s.i]));
              In(t) && (Potential(s) < Potential(t) || (Potential(s) == Potential(t) && t.j <= s.j))
    {
      var f := Prox(u2, grid[s.i]);
      FirstMaxIsFirst(grid, f);
      var r := Reply(u2, grid[s.i]);
      assert f(grid[s.j]) <= f(grid[r]);
      Swap(grid[s.j], grid[s.i]);
      Swap(grid[r], grid[s.i]);
    }

    /** Every sweep either leaves the state alone or moves strictly ahead. */
    lemma SweepClimbsOrRests(s: Pair)
      requires |grid| > 0 && In(s)
      requires forall a, b :: penalty(a, b) == penalty(b, a)
      ensures Sweep(s) == s || Ahead(s, Sweep(s))
    {
      FirstReplyClimbs(s);
      SecondReplyClimbs(Pair(Sweep(s).i, s.j));
    }

    /** A resting state is a mutual best reply: nobody gains by moving alone on the grid. */
    lemma RestIsMutualBestReply(s: Pair)
      requires |grid| > 0 && In(s) && Sweep(s) == s
      requires forall a, b :: penalty(a, b) == penalty(b, a)
      ensures forall i :: 0 <= i < |grid| ==> Potential(Pair(i, s.j)) <= Potential(s)
      ensures forall j :: 0 <= j < |grid| ==> Potential(Pair(s.i, j)) <= Potential(s)
    {
      forall i | 0 <= i < |grid|
        ensures Potential(Pair(i, s.j)) <= Potential(s)
      {
        FirstReplyClimbs(Pair(i, s.j));
      }
      forall j | 0 <= j < |grid|
        ensures Potential(Pair(s.i, j)) <= Potential(s)
      {
        SecondReplyClimbs(Pair(s.i, j));
      }
    }

    // ---- counting states

    function Code(s: Pair): nat {
      Cell(s.i, s.j, |grid|)
    }

    /** Some sweep among the first |grid| x |grid| leaves the state alone. */
    lemma RestsEventually() returns (k: nat)
      requires |grid| > 0
      requires forall a, b :: penalty(a, b) == penalty(b, a)
      ensures k < |grid| * |grid| && After(k + 1) == After(k)
    {
      var inv := (s: Pair) => In(s);
      var ahead := (s: Pair, t: Pair) => In(s) && In(t) && Ahead(s, t);
      var code := (s: Pair) => Code(s);
      forall s | inv(s)
        ensures inv(Next()(s)) && (Next()(s) == s || ahead(s, Next()(s)))
        ensures code(s) < |grid| * |grid|
      {
        SweepClimbsOrRests(s);
        CellBelow(s.i, s.j, |grid|);
      }
      forall s, t | inv(s) && inv(t) && code(s) == code(t)
        ensures s == t
      {
        CellInjective(s.i, s.j, t.i, t.j, |grid|);
      }
      k := RestsWithin(Next(), Start(), inv, ahead, code, |grid| * |grid|);
      AfterIsOrbit(k);
      AfterIsOrbit(k + 1);
    }

    lemma RestLasts(k: nat)
      requires |grid| > 0 && After(k + 1) == After(k)
      ensures forall t: nat :: t >= k ==> After(t) == After(k)
    {
      hide After, Next, Start;
      AfterIsOrbit(k);
      AfterIsOrbit(k + 1);
      forall t: nat | t >= k
        ensures After(t) == After(k)
      {
        AfterIsOrbit(t);
        RestStays(Next(), Start(), k, t);
      }
    }
  }

  /** The game the mechanism plays: its penalty is the weighted squared distance. */
  function Negotiation(grid: seq<real>, u1: Utility, u2: Utility, w: real): Game {
    Game(grid, u1, u2, Quadratic(w))
  }

  /** A quantity's worth to a participant, less w times its squared distance from the other's quantity. */
  function Proximal(u: Utility, w: real, target: real, q: real): real {
    u(q) - w * ((q - target) * (q - target))
  }

  /** Grid point i is the first whose worth against the target is largest. */
  ghost predicate FirstReply(grid: seq<real>, u: Utility, w: real, target: real, i: nat) {
    && i < |grid|
    && (forall k: nat :: k < |grid| ==> Proximal(u, w, target, grid[k]) <= Proximal(u, w, target, grid[i]))
    && (forall k: nat :: k < i ==> Proximal(u, w, target, grid[k]) < Proximal(u, w, target, grid[i]))
  }

  lemma ProxIsProximal(g: Game, u: Utility, w: real, target: real, q: real)
    requires g.penalty == Quadratic(w)
    ensures g.Prox(u, target)(q) == Proximal(u, w, target, q)
  {
  }

  lemma ReplyIsFirst(g: Game, u: Utility, w: real, target: real)
    requires |g.grid| > 0 && g.penalty == Quadratic(w)
    ensures FirstReply(g.grid, u, w, target, g.Reply(u, target))
  {
    hide FirstMax, FirstMaxTo, Game.Prox, Proximal, Quadratic;
    var f := g.Prox(u, target);
    FirstMaxIsFirst(g.grid, f);
    forall k: nat | k < |g.grid|
      ensures f(g.grid[k]) == Proximal(u, w, target, g.grid[k])
    {
      ProxIsProximal(g, u, w, target, g.grid[k]);
    }
  }

  lemma FirstIsEarliest(grid: seq<real>, u: Utility, w: real, target: real, i: nat, k: nat)
    requires FirstReply(grid, u, w, target, i) && k < i
    ensures Proximal(u, w, target, grid[k]) < Proximal(u, w, target, grid[i])
  {
  }

  lemma OneFirstReply(grid: seq<real>, u: Utility, w: real, target: real, i: nat, j: nat)
    requires FirstReply(grid, u, w, target, i) && FirstReply(grid, u, w, target, j)
    ensures i == j
  {
    hide Proximal;
    if i < j {
      FirstIsEarliest(grid, u, w, target, j, i);
    } else if j < i {
      FirstIsEarliest(grid, u, w, target, i, j);
    }
  }

  /** Against y, no grid quantity leaves u more than x does, net of w times the squared distance. */
  ghost predicate BestAgainst(grid: seq<real>, u: Utility, w: real, y: real, x: real) {
    forall q :: q in grid ==> u(q) - w * ((q - y) * (q - y)) <= u(x) - w * ((x - y) * (x - y))
  }

  lemma Expanded(u: Utility, w: real, target: real, q: real)
    ensures Proximal(u, w, target, q) == u(q) - w * ((q - target) * (q - target))
  {
  }

  lemma FirstReplyIsBest(grid: seq<real>, u: Utility, w: real, target: real, i: nat)
    requires FirstReply(grid, u, w, target, i)
    ensures BestAgainst(grid, u, w, target, grid[i])
  {
    hide Proximal;
    forall q | q in grid
      ensures u(q) - w * ((q - target) * (q - target)) <= u(grid[i]) - w * ((grid[i] - target) * (grid[i] - target))
    {
      var k: nat :| k < |grid| && grid[k] == q;
      assert Proximal(u, w, target, grid[k]) <= Proximal(u, w, target, grid[i]);
      Expanded(u, w, target, q);
      Expanded(u, w, target, grid[i]);
    }
  }

  /** Each sweep is the first participant's first best reply to the old quantity, then the second's to the new. */
  lemma SweepsAreReplies(grid: seq<real>, u1: Utility, u2: Utility, w: real, k: nat)
    requires |grid| > 0
    ensures var g := Negotiation(grid, u1, u2, w);
            && FirstReply(grid, u1, w, grid[g.After(k).j], g.After(k + 1).i)
            && FirstReply(grid, u2, w, grid[g.After(k + 1).i], g.After(k + 1).j)
  {
    hide FirstReply, Game.Reply;
    var g := Negotiation(grid, u1, u2, w);
    ReplyIsFirst(g, u1, w, grid[g.After(k).j]);
    ReplyIsFirst(g, u2, w, grid[g.After(k + 1).i]);
  }

  /**
   * Alternating best response comes to rest within |grid| x |grid| sweeps, and there neither
   * participant does better, net of w times the squared distance, by moving alone on the grid.
   */
  lemma ReachesMutualBestReply(grid: seq<real>, u1: Utility, u2: Utility, w: real) returns (k: nat)
    requires |grid| > 0
    ensures var g := Negotiation(grid, u1, u2, w); var x, y := grid[g.After(k).i], grid[g.After(k).j];
            && k < |grid| * |grid|
            && (forall t: nat :: t >= k ==> g.After(t) == g.After(k))
            && BestAgainst(grid, u1, w, y, x) && BestAgainst(grid, u2, w, x, y)
  {
    hide FirstReply, BestAgainst, Game.After, Quadratic, Game.Potential, Game.RecordOf, Game.Trace;
    QuadraticSymmetric(w);
    var g := Negotiation(grid, u1, u2, w);
    k := g.RestsEventually();
    SweepsAreReplies(grid, u1, u2, w, k);
    FirstReplyIsBest(grid, u1, w, grid[g.After(k).j], g.After(k).i);
    FirstReplyIsBest(grid, u2, w, grid[g.After(k).i], g.After(k).j);
    g.RestLasts(k);
  }

  /**
   * A run that has not met its tolerance after |grid| x |grid| sweeps never meets it:
   * every later record repeats the record reached then.
   */
  lemma UnconvergedForever(grid: seq<real>, u1: Utility, u2: Utility, w: real, t: nat)
    requires |grid| > 0 && t >= |grid| * |grid|
    ensures var g := Negotiation(grid, u1, u2, w);
            g.RecordOf(g.After(t)) == g.RecordOf(g.After(|grid| * |grid|))
  {
    var g := Negotiation(grid, u1, u2, w);
    var k := ReachesMutualBestReply(grid, u1, u2, w);
    assert g.After(t) == g.After(k) == g.After(|grid| * |grid|);
  }
}
