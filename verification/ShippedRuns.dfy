/** Alternating best response and the price-only dual on the base scenario. */
module ShippedRuns {
  import opened Numeric
  import opened Grids
  import opened Sdk
  import opened Gap
  import opened ShippedScenario
  import B = BestResponse
  import P = PriceDual
  import S = SecureArgmax
  import W = WeightedNash
  import Field
  import F = Formula

  /** The ledger and the gap of a feasible consensus on the base scenario. */
  method Scored(m: F.Math, q: real) returns (run: Ledger, gap: Option<real>)
    requires 0.0 <= q <= CAPACITY
    ensures run.globalUtility == JointCurve(DEMAND, q) && gap == Some(35000.0 - JointCurve(DEMAND, q))
  {
    hide Joint, AllShipped, BuyerPart, SupplierPart;
    BuiltShipped(DEMAND, CAPACITY);
    run := CommonLedger(m, Base(), q);
    JointIsCurve(DEMAND, CAPACITY, q);
    var best, l := OracleTakes35000(m);
    gap := GapOf(l, run);
  }

  // ---- alternating best response

  /** The mechanism's game at its default weight. */
  function Talks(): B.Game {
    B.Negotiation(CoarseGrid(), BuyerUtility(DEMAND), SupplierUtility(DEMAND), 0.08)
  }

  lemma ProximalAt(u: Utility, target: real, q: real, d: real)
    requires d == q - target
    ensures B.Proximal(u, 0.08, target, q) == u(q) - 0.08 * (d * d)
  {
  }

  lemma SquareOf(a: real, b: real, d: real)
    requires d == 25.0 * (a - b)
    ensures d * d == 625.0 * ((a - b) * (a - b))
  {
  }

  lemma SquareGap(n: real, t: real)
    ensures (n - t) * (n - t) - (20.0 - t) * (20.0 - t) == (20.0 - n) * (2.0 * t - 20.0 - n)
  {
  }

  /** In steps of 25: what leaving the demand for step n costs the buyer against step t. */
  lemma BuyerCost(n: real, t: real)
    requires t == 33.0 || t == 24.0
    ensures n < 20.0 ==> 3250.0 * (20.0 - n) + 50.0 * ((n - t) * (n - t) - (20.0 - t) * (20.0 - t)) > 0.0
    ensures n >= 21.0 ==> 1375.0 * (n - 20.0) + 50.0 * ((n - t) * (n - t) - (20.0 - t) * (20.0 - t)) >= 0.0
  {
    SquareGap(n, t);
    var away, pull := 20.0 - n, 2.0 * t - 20.0 - n;
    if n < 20.0 {
      MulMonotone(0.0, pull, away);
    } else if n >= 21.0 {
      var rest := 1375.0 - 50.0 * pull;
      MulMonotone(0.0, rest, -away);
      assert rest * -away == 1375.0 * -away + 50.0 * (away * pull);
    }
  }

  /** Against 825 or 600 the buyer keeps to the demand. */
  lemma BuyerKeeps(target: real, k: nat)
    requires target == 825.0 || target == 600.0
    ensures B.Proximal(BuyerUtility(DEMAND), 0.08, target, 25.0 * k as real) <= B.Proximal(BuyerUtility(DEMAND), 0.08, target, 500.0)
    ensures k < 20 ==> B.Proximal(BuyerUtility(DEMAND), 0.08, target, 25.0 * k as real) < B.Proximal(BuyerUtility(DEMAND), 0.08, target, 500.0)
  {
    var n, t := k as real, target / 25.0;
    ProximalAt(BuyerUtility(DEMAND), target, 25.0 * n, 25.0 * n - target);
    ProximalAt(BuyerUtility(DEMAND), target, 500.0, 500.0 - target);
    SquareOf(n, t, 25.0 * n - target);
    SquareOf(20.0, t, 500.0 - target);
    hide B.Proximal;
    BuyerCost(n, t);
  }

  lemma BuyerStays(target: real)
    requires target == 825.0 || target == 600.0
    ensures B.FirstReply(CoarseGrid(), BuyerUtility(DEMAND), 0.08, target, 20)
  {
    hide CoarseGrid, B.Proximal, BuyerUtility;
    CoarseGridIs();
    forall k: nat | k < 34
      ensures B.Proximal(BuyerUtility(DEMAND), 0.08, target, CoarseGrid()[k]) <= B.Proximal(BuyerUtility(DEMAND), 0.08, target, CoarseGrid()[20])
      ensures k < 20 ==> B.Proximal(BuyerUtility(DEMAND), 0.08, target, CoarseGrid()[k]) < B.Proximal(BuyerUtility(DEMAND), 0.08, target, CoarseGrid()[20])
    {
      BuyerKeeps(target, k);
    }
  }

  lemma SupplierSquare(n: real)
    ensures 50.0 * ((n - 20.0) * (n - 20.0)) - 425.0 * n + 9400.0 == 50.0 * ((n - 24.0) * (n - 24.5))
  {
  }

  lemma SquareSign(d: real)
    ensures d * d >= 0.0
  {
    if d >= 0.0 {
      MulMonotone(0.0, d, d);
    } else {
      MulMonotone(0.0, -d, -d);
      assert d * d == -d * -d;
    }
  }

  /** In steps of 25: what step n is worth to the supplier against step 20, below what step 24 is. */
  lemma SupplierCost(k: nat, n: real)
    requires n == k as real
    ensures (n - 20.0) * (n - 20.0) >= 0.0
    ensures k > 20 ==> 425.0 * n + 1500.0 - 50.0 * ((n - 20.0) * (n - 20.0)) <= 10900.0
    ensures 20 < k < 24 ==> 425.0 * n + 1500.0 - 50.0 * ((n - 20.0) * (n - 20.0)) < 10900.0
  {
    SquareSign(n - 20.0);
    SupplierSquare(n);
    if k < 24 {
      MulStrict(0.0, 24.5 - n, 24.0 - n);
      assert (n - 24.0) * (n - 24.5) == (24.5 - n) * (24.0 - n);
    } else if k > 24 {
      MulMonotone(0.0, n - 24.5, n - 24.0);
      assert (n - 24.0) * (n - 24.5) == (n - 24.5) * (n - 24.0);
    }
  }

  /** Against 500 the supplier gives up all but 600 of its 825. */
  lemma SupplierGives(k: nat)
    ensures B.Proximal(SupplierUtility(DEMAND), 0.08, 500.0, 25.0 * k as real) <= B.Proximal(SupplierUtility(DEMAND), 0.08, 500.0, 600.0)
    ensures k < 24 ==> B.Proximal(SupplierUtility(DEMAND), 0.08, 500.0, 25.0 * k as real) < B.Proximal(SupplierUtility(DEMAND), 0.08, 500.0, 600.0)
  {
    var n := k as real;
    ProximalAt(SupplierUtility(DEMAND), 500.0, 25.0 * n, 25.0 * n - 500.0);
    ProximalAt(SupplierUtility(DEMAND), 500.0, 600.0, 100.0);
    SquareOf(n, 20.0, 25.0 * n - 500.0);
    hide B.Proximal;
    SupplierCost(k, n);
  }

  lemma SupplierYields()
    ensures B.FirstReply(CoarseGrid(), SupplierUtility(DEMAND), 0.08, 500.0, 24)
  {
    hide CoarseGrid, B.Proximal, SupplierUtility;
    CoarseGridIs();
    forall k: nat | k < 34
      ensures B.Proximal(SupplierUtility(DEMAND), 0.08, 500.0, CoarseGrid()[k]) <= B.Proximal(SupplierUtility(DEMAND), 0.08, 500.0, CoarseGrid()[24])
      ensures k < 24 ==> B.Proximal(SupplierUtility(DEMAND), 0.08, 500.0, CoarseGrid()[k]) < B.Proximal(SupplierUtility(DEMAND), 0.08, 500.0, CoarseGrid()[24])
    {
      SupplierGives(k);
    }
  }

  /** From the first sweep on the buyer stands at grid point 20, the supplier at 24. */
  lemma {:induction false} RestsAtOnce(k: nat)
    ensures |CoarseGrid()| == 34
    ensures Talks().After(k + 1) == B.Pair(20, 24)
  {
    hide CoarseGrid, B.FirstReply, B.Quadratic, BuyerUtility, SupplierUtility, FirstMax;
    CoarseGridIs();
    var t := Talks();
    B.SweepsAreReplies(CoarseGrid(), BuyerUtility(DEMAND), SupplierUtility(DEMAND), 0.08, k);
    if k == 0 {
      IdealsOnGrid();
      assert CoarseGrid()[t.After(0).j] == 825.0;
    } else {
      RestsAtOnce(k - 1);
    }
    var other := CoarseGrid()[t.After(k).j];
    assert other == 825.0 || other == 600.0;
    BuyerStays(other);
    B.OneFirstReply(CoarseGrid(), BuyerUtility(DEMAND), 0.08, other, 20, t.After(k + 1).i);
    SupplierYields();
    B.OneFirstReply(CoarseGrid(), SupplierUtility(DEMAND), 0.08, 500.0, 24, t.After(k + 1).j);
  }

  lemma BestReplyRecords(k: nat, t: nat)
    requires t < k
    ensures |CoarseGrid()| > 0
    ensures Talks().Trace(k)[t] == B.Record([500.0, 600.0], 550.0, 50.0)
  {
    hide CoarseGrid, B.Game.After, B.Game.RecordOf, B.Quadratic, BuyerUtility, SupplierUtility;
    CoarseGridIs();
    RestsAtOnce(t);
    Talks().TraceAt(k, t);
    Talks().RecordIs(B.Pair(20, 24));
  }

  /**
   * On the base scenario the supplier comes down from 825 to 600 in the first sweep, the buyer
   * never moves from 500, and nothing changes after that: for any iteration limit and any
   * tolerance below 50 the run does not converge, and its consensus of 550 is scored 1900 short.
   */
  method BestResponseStalls(m: F.Math, maxIter: nat, tolerance: real)
    returns (us: seq<Utility>, records: seq<B.Record>, converged: bool, run: Ledger, gap: Option<real>)
    requires maxIter > 0 && tolerance < 50.0
    ensures AreUtilities(m, us, DEMAND, CAPACITY)
    ensures |CoarseGrid()| > 0 && |records| == maxIter && !converged
    ensures forall t :: 0 <= t < maxIter ==> records[t] == B.Record([500.0, 600.0], 550.0, 50.0)
    ensures run.globalUtility == 33100.0 && gap == Some(1900.0)
  {
    hide Joint, AllShipped, BuyerPart, SupplierPart, CoarseGrid, Evaluate, B.Game.Trace, B.Quadratic;
    CoarseGridIs();
    us := [BuyerUtility(DEMAND), SupplierUtility(DEMAND)];
    records, converged := Talks().Run(maxIter, tolerance);
    forall t: nat | t < |records|
      ensures records[t] == B.Record([500.0, 600.0], 550.0, 50.0)
    {
      BestReplyRecords(|records|, t);
    }
    CurvesAreUtilities(m, DEMAND, CAPACITY);
    run, gap := Scored(m, 550.0);
  }

  // ---- the price-only dual

  /** The mechanism's market at its default rate. */
  function Fair(): P.Market {
    P.Market(CoarseGrid(), BuyerUtility(DEMAND), SupplierUtility(DEMAND), 0.35)
  }

  lemma NetAt(price: real, q: real)
    ensures Fair().BuyerNet(price, q) == BuyerCurve(DEMAND, q) - price * q
    ensures Fair().SupplierNet(price, q) == SupplierCurve(DEMAND, q) + price * q
  {
    hide CoarseGrid;
  }

  /** The two sides' grid points at the three prices that occur. */
  function Wants(price: real): (nat, nat) {
    if price == 0.0 then (20, 33) else if price < 0.0 then (33, 0) else (0, 33)
  }

  lemma WantsAre(price: real)
    requires price in {0.0, -113.75, 175.0}
    ensures Fair().Buys(price, Wants(price).0) && Fair().Sells(price, Wants(price).1)
  {
    hide CoarseGrid, P.Market.BuyerNet, P.Market.SupplierNet;
    CoarseGridIs();
    forall k: nat | k < 34
      ensures Fair().BuyerNet(price, CoarseGrid()[k]) == BuyerCurve(DEMAND, 25.0 * k as real) - price * (25.0 * k as real)
      ensures Fair().SupplierNet(price, CoarseGrid()[k]) == SupplierCurve(DEMAND, 25.0 * k as real) + price * (25.0 * k as real)
    {
      NetAt(price, 25.0 * k as real);
    }
  }

  /** The price in force before record t. */
  function SwingPrice(t: nat): real {
    if t == 0 then 0.0 else if t % 2 == 1 then -113.75 else 175.0
  }

  /** The records of the swing: 500 against 825, then 825 against 0 and 0 against 825 for ever. */
  function SwingRecord(t: nat): P.Record {
    if t == 0 then P.Record([500.0, 825.0], 662.5, 162.5, -113.75)
    else if t % 2 == 1 then P.Record([825.0, 0.0], 412.5, 412.5, 175.0)
    else P.Record([0.0, 825.0], 412.5, 412.5, -113.75)
  }

  lemma RoundAtSwing(t: nat, record: P.Record)
    requires Fair().IsRound(SwingPrice(t), record)
    ensures record == SwingRecord(t)
  {
    hide CoarseGrid, P.Market.BuyerNet, P.Market.SupplierNet, BuyerUtility, SupplierUtility;
    var price := SwingPrice(t);
    CoarseGridIs();
    WantsAre(price);
    var i: nat :| Fair().Buys(price, i) && CoarseGrid()[i] == record.quantities[0];
    var j: nat :| Fair().Sells(price, j) && CoarseGrid()[j] == record.quantities[1];
    Fair().OneFirstBest(price, i, Wants(price).0);
    Fair().OneFirstBest(price, j, Wants(price).1);
    assert record.quantities == [record.quantities[0], record.quantities[1]];
  }

  lemma {:induction false} SwingAt(records: seq<P.Record>, t: nat)
    requires t < |records|
    requires forall k: nat :: k < |records| ==> Fair().IsRound(P.PriceBefore(records, k), records[k])
    ensures records[t] == SwingRecord(t)
  {
    hide P.Market.IsRound;
    if t > 0 {
      SwingAt(records, t - 1);
    }
    assert P.PriceBefore(records, t) == SwingPrice(t);
    RoundAtSwing(t, records[t]);
  }

  /**
   * On the base scenario the price swings between -113.75 and 175 for ever, each side in turn
   * asking for everything while the other wants nothing. For any iteration limit past one and any
   * tolerance below 162.5 the run never converges; its last consensus of 412.5 is scored 13650 short.
   */
  method PriceSwings(m: F.Math, maxIter: nat, tolerance: real)
    returns (us: seq<Utility>, records: seq<P.Record>, converged: bool, run: Ledger, gap: Option<real>)
    requires maxIter > 1 && tolerance < 162.5
    ensures AreUtilities(m, us, DEMAND, CAPACITY)
    ensures |records| == maxIter && !converged
    ensures records[0] == P.Record([500.0, 825.0], 662.5, 162.5, -113.75)
    ensures forall t :: 0 < t < maxIter && t % 2 == 1 ==> records[t] == P.Record([825.0, 0.0], 412.5, 412.5, 175.0)
    ensures forall t :: 0 < t < maxIter && t % 2 == 0 ==> records[t] == P.Record([0.0, 825.0], 412.5, 412.5, -113.75)
    ensures run.globalUtility == 21350.0 && gap == Some(13650.0)
  {
    hide Joint, AllShipped, BuyerPart, SupplierPart, CoarseGrid, Evaluate, P.Market.IsRound, P.Market.Trace;
    CoarseGridIs();
    us := [BuyerUtility(DEMAND), SupplierUtility(DEMAND)];
    records, converged := Fair().Run(maxIter, tolerance);
    forall t: nat | t < |records|
      ensures records[t] == SwingRecord(t)
    {
      SwingAt(records, t);
    }
    CurvesAreUtilities(m, DEMAND, CAPACITY);
    run, gap := Scored(m, 412.5);
  }

  // ---- the weighted-Nash searches

  /** The two participants with their walk-away values, which the scenario sets to zero. */
  function Table(): seq<S.Party> {
    [S.Party(BuyerUtility(DEMAND), 0.0), S.Party(SupplierUtility(DEMAND), 0.0)]
  }

  function Gains(q: real): real {
    Max(0.0, BuyerCurve(DEMAND, q)) * Max(0.0, SupplierCurve(DEMAND, q))
  }

  lemma ProductIsGains(i: nat)
    requires i < 64
    ensures W.Products(Table(), CAPACITY)[i] == Gains(CAPACITY * i as real / 63.0)
  {
    var q := W.GridPoint(CAPACITY, i);
    W.TwoPartyProduct(Table(), q);
    assert W.Products(Table(), CAPACITY)[i] == W.Nash(Table(), q);
  }

  lemma Factored(a: real, b: real)
    ensures (52500.0 - 55.0 * a) * (17.0 * a + 1500.0) - (52500.0 - 55.0 * b) * (17.0 * b + 1500.0)
         == (b - a) * (935.0 * (a + b) - 810000.0)
  {
  }

  /** The product past the demand, as a difference of two of its values. */
  lemma PastDemand(a: real, b: real)
    requires 500.0 < a && a + 12.0 <= b <= 800.0
    ensures Gains(a) > Gains(b) + 1000000.0
  {
    var x, y := 52500.0 - 55.0 * a, 17.0 * a + 1500.0;
    var v, w := 52500.0 - 55.0 * b, 17.0 * b + 1500.0;
    assert Gains(a) == x * y && Gains(b) == v * w;
    var d, slope := b - a, 935.0 * (a + b) - 810000.0;
    assert x * y - v * w == d * slope by { Factored(a, b); }
    MulBoth(12.0, d, 125000.0, slope);
  }

  /** Candidate 40, the first past the demand, is worth over a million more than any other. */
  lemma CandidateForty(i: nat)
    requires i < 64 && i != 40
    ensures Gains(CAPACITY * 40.0 / 63.0) > Gains(CAPACITY * i as real / 63.0) + 1000000.0
    ensures 240000000.0 < Gains(CAPACITY * 40.0 / 63.0) < 250000000.0
  {
    var best, q := CAPACITY * 40.0 / 63.0, CAPACITY * i as real / 63.0;
    var top := 31200.0 / 63.0;
    assert Max(0.0, BuyerCurve(DEMAND, top)) <= 24381.0 && Max(0.0, SupplierCurve(DEMAND, top)) <= 9877.0;
    if i < 40 {
      MulBoth(Max(0.0, BuyerCurve(DEMAND, q)), 24381.0, Max(0.0, SupplierCurve(DEMAND, q)), 9877.0);
    } else {
      PastDemand(best, q);
    }
  }

  lemma NashKeepsForty(s: W.Solution)
    requires W.Returned(Table(), CAPACITY, s)
    ensures s.feasible && s.quantity == CAPACITY * 40.0 / 63.0 && s.product == Gains(s.quantity)
  {
    hide Gains, W.Kept, W.Nash;
    var products, k := W.Products(Table(), CAPACITY), W.Kept(W.Products(Table(), CAPACITY), S.LEVELS);
    ProductIsGains(40);
    ProductIsGains(k);
    CandidateForty(if k == 40 then 0 else k);
    assert products[40] > 0.0;
    W.KeptIsNearMaximal(products, S.LEVELS);
    assert products[40] <= products[k] + W.TIE;
    assert W.GridPoint(CAPACITY, 40) == CAPACITY * 40.0 / 63.0;
  }

  /**
   * On the base scenario the plaintext weighted-Nash search settles on candidate 40 of 64, 507.94
   * units, past the demand: scored 19000/63, about 301.59, below the oracle.
   */
  method NashSettles(m: F.Math) returns (us: seq<Utility>, s: W.Solution, run: Ledger, gap: Option<real>)
    ensures AreUtilities(m, us, DEMAND, CAPACITY)
    ensures W.Returned([S.Party(us[0], 0.0), S.Party(us[1], 0.0)], CAPACITY, s)
    ensures s.feasible && s.quantity * 63.0 == 32000.0
    ensures gap.Some? && gap.value * 63.0 == 19000.0 && run.globalUtility == 35000.0 - gap.value
  {
    hide Joint, AllShipped, BuyerPart, SupplierPart, Evaluate, W.Returned;
    us := [BuyerUtility(DEMAND), SupplierUtility(DEMAND)];
    assert [S.Party(us[0], 0.0), S.Party(us[1], 0.0)] == Table();
    s := W.PlaintextArgmax(Table(), 1, CAPACITY);
    NashKeepsForty(s);
    CurvesAreUtilities(m, DEMAND, CAPACITY);
    run, gap := Scored(m, s.quantity);
  }

  /** Two facts about the natural log: it turns products into sums, and log x - log y is at least 1 - y/x. */
  ghost predicate LikeNaturalLog(log: real -> real) {
    S.Multiplicative(log) && forall x, y :: x > 0.0 && y > 0.0 ==> log(x) - log(y) >= 1.0 - y / x
  }

  function Secure(log: real -> real): S.Problem {
    S.Problem(Table()[0], Table()[1], CAPACITY, log)
  }

  lemma LogLead(log: real -> real, x: real, y: real)
    requires LikeNaturalLog(log) && 240000000.0 < x < 250000000.0 && 0.0 < y && x > y + 1000000.0
    ensures log(x) > log(y) + 2.0 / Field.SCALE as real
  {
    hide S.Multiplicative;
    var ratio := y / x;
    DivMul(y, x);
    if ratio >= 0.996 {
      MulMonotone(0.996, ratio, x);
    }
  }

  lemma SecureGains(log: real -> real, i: nat)
    requires i < 64
    ensures Secure(log).GainProduct(i) == Gains(CAPACITY * i as real / 63.0)
    ensures Secure(log).Feasible(i) <==> Gains(CAPACITY * i as real / 63.0) > 0.0
  {
    var q := CAPACITY * i as real / 63.0;
    assert Secure(log).Quantity(i) == q;
    var a, b := Max(0.0, BuyerCurve(DEMAND, q)), Max(0.0, SupplierCurve(DEMAND, q));
    if a > 0.0 && b > 0.0 {
      MulStrict(0.0, a, b);
    }
  }

  lemma LogIsMultiplicative(log: real -> real)
    requires LikeNaturalLog(log)
    ensures S.Multiplicative(log)
  {
  }

  lemma FortyWinsClearly(log: real -> real)
    requires LikeNaturalLog(log)
    ensures W.ClearWinner(Secure(log), 40)
  {
    hide Gains, S.Problem.GainProduct, S.Problem.Feasible, S.Problem.LogProduct, S.Multiplicative, W.Nash, LikeNaturalLog;
    var p := Secure(log);
    SecureGains(log, 40);
    CandidateForty(0);
    assert S.Multiplicative(log) by { LogIsMultiplicative(log); }
    S.LogOfGains(p, 40);
    ProductIsGains(40);
    forall j: nat | j < S.LEVELS && j != 40 && p.Feasible(j)
      ensures p.LogProduct(40) > p.LogProduct(j) + 2.0 / Field.SCALE as real
    {
      SecureGains(log, j);
      CandidateForty(j);
      S.LogOfGains(p, j);
      LogLead(log, p.GainProduct(40), p.GainProduct(j));
    }
    forall j | 0 <= j < S.LEVELS && j != 40
      ensures W.Products([p.p0, p.p1], p.upper)[40] > W.Products([p.p0, p.p1], p.upper)[j] + W.TIE
    {
      ProductIsGains(j);
      CandidateForty(j);
      assert [p.p0, p.p1] == Table();
    }
  }

  /** Under any such log the secure search reveals the candidate the plaintext search settles on. */
  lemma SecureSearchAgrees(log: real -> real, s: W.Solution)
    requires W.Returned(Table(), CAPACITY, s)
    ensures LikeNaturalLog(log) ==>
      S.Best(Secure(log).Mask(), Secure(log).Scores(), S.LEVELS) == 40 && s.quantity == Secure(log).Quantity(40)
  {
    hide LikeNaturalLog, W.ClearWinner, S.Best, W.Returned;
    if LikeNaturalLog(log) {
      var p := Secure(log);
      FortyWinsClearly(log);
      assert [p.p0, p.p1] == Table();
      W.SearchesAgree(p, s, 40);
    }
  }
}
