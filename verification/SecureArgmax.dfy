/** The two-party MPC argmax: shared log-Nash scores compared by blinded signs. */
module SecureArgmax {
  import opened Numeric
  import opened Grids
  import opened Field
  import opened Beaver

  const LEVELS: nat := 64  // NASH_QUANTIZATION_LEVELS

  datatype Party = Party(u: Utility, outside: real) {
    function Gain(q: real): real {
      Max(0.0, u(q) - outside)
    }
  }

  /** What reaches the transcript: indices and comparison outcomes, never a magnitude. */
  datatype Chunk =
    | LogSum(candidateIndex: nat)
    | SeedBest(bestIndex: nat)
    | Compared(left: nat, right: nat, winnerIsLeft: bool)

  // ---- the argmax on a feasibility mask and a table of scores

  /** Index of the best feasible score among the first n, -1 when none is feasible. */
  function Best(mask: seq<bool>, scores: seq<int>, n: nat): (b: int)
    requires n <= |mask| == |scores|
    ensures -1 <= b < n
    ensures b >= 0 ==> mask[b]
  {
    if n == 0 then -1
    else
      var b := Best(mask, scores, n - 1);
      if !mask[n - 1] then b
      else if b == -1 || scores[n - 1] > scores[b] then n - 1
      else b
  }

  function Comparisons(mask: seq<bool>, n: nat): nat
    requires n <= |mask|
  {
    if n == 0 then 0
    else Comparisons(mask, n - 1) + if mask[n - 1] && true in mask[..n - 1] then 1 else 0
  }

  /** The chunks of the max-tree walk over the first n candidates. */
  function Transcript(mask: seq<bool>, scores: seq<int>, n: nat): seq<Chunk>
    requires n <= |mask| == |scores|
  {
    if n == 0 then []
    else
      var b := Best(mask, scores, n - 1);
      Transcript(mask, scores, n - 1) +
      if !mask[n - 1] then []
      else if b == -1 then [SeedBest(n - 1)]
      else [Compared(n - 1, b, scores[n - 1] > scores[b])]
  }

  function SumChunks(n: nat): seq<Chunk> {
    if n == 0 then [] else SumChunks(n - 1) + [LogSum(n - 1)]
  }

  /** One sum per candidate, in order. */
  lemma {:induction false} SumChunksAre(n: nat)
    ensures |SumChunks(n)| == n && forall i: nat :: i < n ==> SumChunks(n)[i] == LogSum(i)
  {
    if n > 0 {
      SumChunksAre(n - 1);
    }
  }

  /** The walk finds the smallest feasible index with a maximal score. */
  lemma {:induction false} BestIsFirstMaximum(mask: seq<bool>, scores: seq<int>, n: nat)
    requires n <= |mask| == |scores|
    ensures var b := Best(mask, scores, n);
            && (b == -1 <==> forall i :: 0 <= i < n ==> !mask[i])
            && (b >= 0 ==> forall i :: 0 <= i < n && mask[i] ==> scores[i] <= scores[b])
            && (b >= 0 ==> forall i :: 0 <= i < b && mask[i] ==> scores[i] < scores[b])
  {
    if n > 0 {
      BestIsFirstMaximum(mask, scores, n - 1);
    }
  }

  /** Candidate i is feasible, and no earlier one is. */
  ghost predicate FirstFeasible(mask: seq<bool>, i: nat) {
    i < |mask| && mask[i] && forall j :: 0 <= j < i ==> !mask[j]
  }

  /**
   * What the walk reveals: which candidate is the first feasible one, and for every later feasible
   * one whether it beats the best before it; nothing about any other candidate.
   */
  lemma {:induction false} TranscriptReveals(mask: seq<bool>, scores: seq<int>, n: nat, chunk: Chunk)
    requires n <= |mask| == |scores|
    ensures chunk in Transcript(mask, scores, n) <==>
      match chunk
      case LogSum(_) => false
      case SeedBest(i) => i < n && FirstFeasible(mask, i)
      case Compared(i, b, wins) =>
        i < n && mask[i] && Best(mask, scores, i) == b && (wins <==> scores[i] > scores[b])
  {
    if n > 0 {
      TranscriptReveals(mask, scores, n - 1, chunk);
      BestIsFirstMaximum(mask, scores, n - 1);
      var b := Best(mask, scores, n - 1);
      var last: seq<Chunk> := if !mask[n - 1] then [] else if b == -1 then [SeedBest(n - 1)] else [Compared(n - 1, b, scores[n - 1] > scores[b])];
      assert Transcript(mask, scores, n) == Transcript(mask, scores, n - 1) + last;
      assert mask[n - 1] ==> (b == -1 <==> FirstFeasible(mask, n - 1));
    }
  }

  /** One comparison per feasible candidate after the first: as many as the transcript shows. */
  lemma {:induction false} ComparisonsAreLogged(mask: seq<bool>, scores: seq<int>, n: nat)
    requires n <= |mask| == |scores|
    ensures |Transcript(mask, scores, n)| == Comparisons(mask, n) + if Best(mask, scores, n) == -1 then 0 else 1
  {
    if n > 0 {
      ComparisonsAreLogged(mask, scores, n - 1);
      BestIsFirstMaximum(mask, scores, n - 1);
      assert Best(mask, scores, n - 1) == -1 <==> true !in mask[..n - 1];
    }
  }

  ghost predicate SameOrder(mask: seq<bool>, s: seq<int>, t: seq<int>)
    requires |mask| == |s| == |t|
  {
    forall i, j :: 0 <= i < |mask| && 0 <= j < |mask| && mask[i] && mask[j] ==> (s[i] > s[j] <==> t[i] > t[j])
  }

  /**
   * Two runs with the same feasibility mask and the same order among feasible scores leave the
   * same transcript and the same winner: score magnitudes never reach the transcript.
   */
  lemma {:induction false} TranscriptShowsOrderOnly(mask: seq<bool>, s: seq<int>, t: seq<int>, n: nat)
    requires n <= |mask| == |s| == |t| && SameOrder(mask, s, t)
    ensures Best(mask, s, n) == Best(mask, t, n)
    ensures Transcript(mask, s, n) == Transcript(mask, t, n)
  {
    if n > 0 {
      TranscriptShowsOrderOnly(mask, s, t, n - 1);
    }
  }

  // ---- the scores the parties share

  /** The scaled sentinel log-gain. */
  const SENTINEL: int := -4294967296000000000

  /** A score difference that carries one or two sentinels, blinded by 1 and by 2 or 4. */
  lemma WrappedGap(d: int, n: nat)
    requires n == 1 || n == 2
    requires -3000 * SCALE - 3 <= d - n * SENTINEL <= 3000 * SCALE + 3
    ensures 0 < Mod(1 * d) <= HALF && Mod((if n == 2 then 2 else 4) * d) > HALF
  {
    var e, f := d - n * SENTINEL, if n == 2 then 2 else 4;
    assert n * f == 4;
    ModShift(n * SENTINEL + e, if n == 2 then 4 else 2);
    ModShift(f * d, 8);
    assert f * d == 4 * SENTINEL + f * e;
  }

  lemma ScaledBound(x: real)
    requires -1000.0 <= x <= 1000.0
    ensures -1000 * SCALE - 1 <= Scaled(x) <= 1000 * SCALE + 1
  {
    var y := x * SCALE as real;
    assert -1000.0 * 4294967296.0 <= y <= 1000.0 * 4294967296.0;
  }

  /** Twice the largest feasible score. */
  const MAX_GAP: int := 17179869184004  // 2 * (2000 * SCALE + 2)

  lemma IntProduct(r: int, d: int, maxR: int, maxD: int)
    requires 0 <= r <= maxR && -maxD <= d <= maxD
    ensures -(maxR * maxD) <= r * d <= maxR * maxD
  {
    assert r * (maxD - d) >= 0;
    assert r * (maxD + d) >= 0;
    assert (maxR - r) * maxD >= 0;
  }

  lemma ProductBound(r: int, d: int)
    requires 1 <= r < 65536 && -MAX_GAP <= d <= MAX_GAP
    ensures -HALF <= r * d <= HALF
  {
    IntProduct(r, d, 65535, MAX_GAP);
  }

  datatype Problem = Problem(p0: Party, p1: Party, upper: real, log: real -> real) {

    function Quantity(i: nat): real {
      upper * i as real / (LEVELS - 1) as real
    }

    predicate Feasible(i: nat) {
      p0.Gain(Quantity(i)) > 0.0 && p1.Gain(Quantity(i)) > 0.0
    }

    function LogGain(p: Party, i: nat): real {
      var gain := p.Gain(Quantity(i));
      if gain > 0.0 then log(gain) else LOG_INFEASIBLE
    }

    function Score(i: nat): int {
      Scaled(LogGain(p0, i)) + Scaled(LogGain(p1, i))
    }

    function Mask(): (m: seq<bool>)
      ensures |m| == LEVELS
    {
      seq(LEVELS, i requires 0 <= i => Feasible(i))
    }

    function Scores(): (s: seq<int>)
      ensures |s| == LEVELS
    {
      seq(LEVELS, i requires 0 <= i => Score(i))
    }

    /** True of the natural log of every finite positive double: -745 <= log(gain) <= 710. */
    ghost predicate LogsInRange() {
      forall i: nat :: i < LEVELS && Feasible(i) ==>
        -1000.0 <= LogGain(p0, i) <= 1000.0 && -1000.0 <= LogGain(p1, i) <= 1000.0
    }

    lemma ScoreBound(i: nat)
      requires LogsInRange() && i < LEVELS && Feasible(i)
      ensures -2000 * SCALE - 2 <= Score(i) <= 2000 * SCALE + 2
    {
      ScaledBound(LogGain(p0, i));
      ScaledBound(LogGain(p1, i));
    }

    /** No blinded difference of feasible scores wraps the field, whatever the blinding factor. */
    lemma BlindingNeverWraps(i: nat, j: nat, r: int)
      requires LogsInRange() && i < LEVELS && j < LEVELS && Feasible(i) && Feasible(j)
      requires 1 <= r < 65536
      ensures -HALF <= r * (Score(i) - Score(j)) <= HALF
    {
      hide Score, Feasible, LogsInRange;
      ScoreBound(i);
      ScoreBound(j);
      ProductBound(r, Score(i) - Score(j));
    }

    /** How many of the two parties candidate j leaves without a gain. */
    function Sentinels(j: nat): nat {
      (if p0.Gain(Quantity(j)) > 0.0 then 0 else 1) + if p1.Gain(Quantity(j)) > 0.0 then 0 else 1
    }

    /** The logs a candidate carries besides its sentinels are in range. */
    ghost predicate OtherLogsInRange(j: nat) {
      && (p0.Gain(Quantity(j)) > 0.0 ==> -1000.0 <= LogGain(p0, j) <= 1000.0)
      && (p1.Gain(Quantity(j)) > 0.0 ==> -1000.0 <= LogGain(p1, j) <= 1000.0)
    }

    /** Every sentinel puts the same wrapped weight into the score. */
    lemma InfeasibleScore(j: nat)
      requires OtherLogsInRange(j) && Sentinels(j) > 0
      ensures -1000 * SCALE - 1 <= Score(j) - Sentinels(j) * SENTINEL <= 1000 * SCALE + 1
    {
      RoundOfInteger(SENTINEL);
      assert LOG_INFEASIBLE * SCALE as real == SENTINEL as real;
      if p0.Gain(Quantity(j)) > 0.0 { ScaledBound(LogGain(p0, j)); }
      if p1.Gain(Quantity(j)) > 0.0 { ScaledBound(LogGain(p1, j)); }
    }

    lemma AtMostTwo(j: nat)
      ensures Sentinels(j) <= 2
    {
    }

    /**
     * Were an infeasible candidate j compared with a feasible i, it would win exactly when the
     * blinded difference lands in the lower half of the field. For every such pair some blinding
     * factor makes it win and another makes it lose: only the mask decides.
     */
    lemma InfeasibleComparison(i: nat, j: nat, x: seq<Elem>, y: seq<Elem>, r: int)
      requires LogsInRange() && i < LEVELS && Feasible(i)
      requires OtherLogsInRange(j) && Sentinels(j) > 0
      requires |x| == 2 && |y| == 2 && Reconstruct(x) == Mod(Score(j)) && Reconstruct(y) == Mod(Score(i))
      ensures Compare(x, y, r) <==> 0 < Mod(r * (Score(j) - Score(i))) <= HALF
      ensures Compare(x, y, 1)
      ensures !Compare(x, y, if Sentinels(j) == 2 then 2 else 4)
    {
      hide Mod, Score, Feasible, LogsInRange, OtherLogsInRange, Sentinels, Compare, Reconstruct;
      var d, n := Score(j) - Score(i), Sentinels(j);
      CompareIff(x, y, r, Score(j), Score(i));
      CompareIff(x, y, 1, Score(j), Score(i));
      CompareIff(x, y, if n == 2 then 2 else 4, Score(j), Score(i));
      ScoreBound(i);
      InfeasibleScore(j);
      assert n == 1 || n == 2 by { AtMostTwo(j); }
      WrappedGap(d, n);
    }

    // ---- precision

    /** The sum of the two true log-gains. */
    function LogProduct(i: nat): real {
      LogGain(p0, i) + LogGain(p1, i)
    }

    /** The product of the two gains. */
    function GainProduct(i: nat): real {
      Max(0.0, p0.u(Quantity(i)) - p0.outside) * Max(0.0, p1.u(Quantity(i)) - p1.outside)
    }

    lemma ScoreError(i: nat)
      ensures LogProduct(i) * SCALE as real - 1.0 <= Score(i) as real <= LogProduct(i) * SCALE as real + 1.0
    {
    }

    /** The winner's log-Nash product trails no feasible candidate's by more than 2/2^32. */
    lemma WinnerWithinFixedPointError(j: nat)
      requires j < LEVELS && Feasible(j)
      ensures var b := Best(Mask(), Scores(), LEVELS);
              0 <= b < LEVELS && Feasible(b) && LogProduct(j) - LogProduct(b) <= 2.0 / SCALE as real
    {
      hide Score, Feasible, LogProduct;
      BestIsFirstMaximum(Mask(), Scores(), LEVELS);
      var b := Best(Mask(), Scores(), LEVELS);
      assert Mask()[j];
      assert Scores()[j] <= Scores()[b];
      assert Mask()[b];
      ScoreError(j);
      ScoreError(b);
    }
  }

  /** Such pairs exist: a feasible candidate 1 beside 0, infeasible to both parties, and 2, infeasible to one. */
  lemma InfeasiblePairsExist() returns (p: Problem)
    ensures p.LogsInRange() && p.Feasible(1)
    ensures p.OtherLogsInRange(0) && p.Sentinels(0) == 2
    ensures p.OtherLogsInRange(2) && p.Sentinels(2) == 1
  {
    var u0: Utility := q => if q == 1.0 || q == 2.0 then 1.0 else 0.0;
    var u1: Utility := q => if q == 1.0 then 1.0 else 0.0;
    p := Problem(Party(u0, 0.0), Party(u1, 0.0), 63.0, g => 0.0);
    assert p.Quantity(0) == 0.0 && p.Quantity(1) == 1.0 && p.Quantity(2) == 2.0;
  }

  ghost predicate Multiplicative(log: real -> real) {
    forall x, y :: x > 0.0 && y > 0.0 ==> log(x * y) == log(x) + log(y)
  }

  lemma LogSplits(log: real -> real, a: real, b: real)
    requires Multiplicative(log) && a > 0.0 && b > 0.0
    ensures log(a * b) == log(a) + log(b)
  {
  }

  lemma GainsMultiply(p: Problem, i: nat)
    ensures p.GainProduct(i) == p.p0.Gain(p.Quantity(i)) * p.p1.Gain(p.Quantity(i))
  {
  }

  /** Under such a log the sum of the log-gains is the log of the product of the gains. */
  lemma LogOfGains(p: Problem, i: nat)
    requires p.Feasible(i) && Multiplicative(p.log)
    ensures p.log(p.GainProduct(i)) == p.LogProduct(i)
  {
    hide Multiplicative, Party.Gain;
    var a, b := p.p0.Gain(p.Quantity(i)), p.p1.Gain(p.Quantity(i));
    LogSplits(p.log, a, b);
    assert p.LogGain(p.p0, i) == p.log(a) && p.LogGain(p.p1, i) == p.log(b);
    assert p.GainProduct(i) == a * b by { GainsMultiply(p, i); }
  }

  /** With a log that turns products into sums, the score is about the Nash product itself. */
  lemma WinnerNashProduct(p: Problem, j: nat)
    requires j < LEVELS && p.Feasible(j) && Multiplicative(p.log)
    ensures var b := Best(p.Mask(), p.Scores(), LEVELS);
            0 <= b < LEVELS && p.Feasible(b) && p.log(p.GainProduct(j)) - p.log(p.GainProduct(b)) <= 2.0 / SCALE as real
  {
    hide Multiplicative, Best, Problem.GainProduct, Problem.LogProduct;
    p.WinnerWithinFixedPointError(j);
    LogOfGains(p, j);
    LogOfGains(p, Best(p.Mask(), p.Scores(), LEVELS));
  }

  // ---- the protocol

  class Bookkeeping {
    var triplesConsumed: nat
    var comparisonsRun: nat
    var roundsUsed: nat
    var chunks: seq<Chunk>

    constructor ()
      ensures triplesConsumed == comparisonsRun == roundsUsed == 0 && chunks == []
    {
      triplesConsumed, comparisonsRun, roundsUsed, chunks := 0, 0, 0, [];
    }

    method AddChunk(chunk: Chunk)
      modifies this`chunks
      ensures chunks == old(chunks) + [chunk]
    {
      chunks := chunks + [chunk];
    }
  }

  /** The seeded generator, of which nothing is assumed but the range. */
  method RandRange(lo: int, hi: int) returns (r: int)
    requires lo < hi
    ensures lo <= r < hi
  {
    r :| lo <= r < hi;
  }

  method ShareLog(logGain: real) returns (shares: seq<Elem>)
    ensures |shares| == 2 && Reconstruct(shares) == Mod(Scaled(logGain))
  {
    var draw := RandRange(0, PRIME);
    shares := SplitShare(Encode(logGain), 2, [draw]).value;
    ReconstructSplit(Encode(logGain), 2, [draw]);
    assert Mod(Encode(logGain)) == Encode(logGain);
  }

  lemma ModOfSum(x: int, y: int)
    ensures AddMod(Mod(x), Mod(y)) == Mod(x + y)
  {
  }

  method ShareScore(p: Problem, i: nat) returns (shares: seq<Elem>)
    ensures |shares| == 2 && Reconstruct(shares) == Mod(p.Score(i))
  {
    hide Mod, Scaled;
    var first := ShareLog(p.LogGain(p.p0, i));
    var second := ShareLog(p.LogGain(p.p1, i));
    shares := SecureAdd(first, second).value;
    SecureAddIsHomomorphic(first, second);
    ModOfSum(Scaled(p.LogGain(p.p0, i)), Scaled(p.LogGain(p.p1, i)));
  }

  method SecureCompare(x: seq<Elem>, y: seq<Elem>, ghost sx: int, ghost sy: int) returns (greater: bool)
    requires |x| == 2 && |y| == 2 && Reconstruct(x) == Mod(sx) && Reconstruct(y) == Mod(sy)
    requires -MAX_GAP <= sx - sy <= MAX_GAP
    ensures greater <==> sx > sy
  {
    hide Mod, Reconstruct, Compare;
    var r := RandRange(1, 65536);
    greater := Compare(x, y, r);
    ProductBound(r, sx - sy);
    CompareIsGreater(x, y, r, sx, sy);
  }

  /** Phase 1: masks, shared scores and their transcript entries. */
  method ShareAll(p: Problem, book: Bookkeeping) returns (mask: seq<bool>, shared: seq<seq<Elem>>)
    modifies book
    ensures mask == p.Mask() && |shared| == LEVELS
    ensures forall k :: 0 <= k < LEVELS ==> |shared[k]| == 2 && Reconstruct(shared[k]) == Mod(p.Scores()[k])
    ensures book.chunks == old(book.chunks) + SumChunks(LEVELS)
    ensures book.roundsUsed == old(book.roundsUsed) + LEVELS
    ensures book.comparisonsRun == old(book.comparisonsRun) && book.triplesConsumed == old(book.triplesConsumed)
  {
    hide Mod, Reconstruct, Problem.Score, Problem.Feasible;
    mask, shared := [], [];
    for i := 0 to LEVELS
      invariant mask == p.Mask()[..i] && |shared| == i
      invariant forall k :: 0 <= k < i ==> |shared[k]| == 2 && Reconstruct(shared[k]) == Mod(p.Scores()[k])
      invariant book.chunks == old(book.chunks) + SumChunks(i)
      invariant book.roundsUsed == old(book.roundsUsed) + i
      invariant book.comparisonsRun == old(book.comparisonsRun) && book.triplesConsumed == old(book.triplesConsumed)
    {
      mask := mask + [p.Feasible(i)];
      var shares := ShareScore(p, i);
      shared := shared + [shares];
      book.roundsUsed := book.roundsUsed + 1;
      book.AddChunk(LogSum(i));
    }
  }

  lemma BestIffSeen(mask: seq<bool>, scores: seq<int>, n: nat)
    requires n <= |mask| == |scores|
    ensures Best(mask, scores, n) == -1 <==> true !in mask[..n]
  {
    BestIsFirstMaximum(mask, scores, n);
  }

  /** Phase 2: each feasible candidate in turn is compared with the best so far. */
  method MaxTree(mask: seq<bool>, shared: seq<seq<Elem>>, ghost scores: seq<int>, book: Bookkeeping)
    returns (bestIndex: int)
    requires |mask| == |shared| == |scores|
    requires forall k :: 0 <= k < |mask| ==> |shared[k]| == 2 && Reconstruct(shared[k]) == Mod(scores[k])
    requires forall i, j :: 0 <= i < |mask| && 0 <= j < |mask| && mask[i] && mask[j] ==> -MAX_GAP <= scores[i] - scores[j] <= MAX_GAP
    modifies book
    ensures bestIndex == Best(mask, scores, |mask|)
    ensures book.chunks == old(book.chunks) + Transcript(mask, scores, |mask|)
    ensures book.comparisonsRun == old(book.comparisonsRun) + Comparisons(mask, |mask|)
    ensures book.roundsUsed == old(book.roundsUsed) + Comparisons(mask, |mask|)
    ensures book.triplesConsumed == old(book.triplesConsumed)
  {
    hide Mod, Reconstruct;
    bestIndex := -1;
    var bestShares: seq<Elem> := [];
    for idx := 0 to |mask|
      invariant bestIndex == Best(mask, scores, idx)
      invariant bestIndex >= 0 ==> bestShares == shared[bestIndex]
      invariant book.chunks == old(book.chunks) + Transcript(mask, scores, idx)
      invariant book.comparisonsRun == old(book.comparisonsRun) + Comparisons(mask, idx)
      invariant book.roundsUsed == old(book.roundsUsed) + Comparisons(mask, idx)
      invariant book.triplesConsumed == old(book.triplesConsumed)
    {
      BestIffSeen(mask, scores, idx);
      if mask[idx] {
        if bestIndex == -1 {
          bestShares, bestIndex := shared[idx], idx;
          book.AddChunk(SeedBest(idx));
        } else {
          var winnerIsNew := SecureCompare(shared[idx], bestShares, scores[idx], scores[bestIndex]);
          book.comparisonsRun := book.comparisonsRun + 1;
          book.roundsUsed := book.roundsUsed + 1;
          book.AddChunk(Compared(idx, bestIndex, winnerIsNew));
          if winnerIsNew {
            bestShares, bestIndex := shared[idx], idx;
          }
        }
      }
    }
  }

  lemma {:induction false} NothingFeasible(mask: seq<bool>, scores: seq<int>, n: nat)
    requires n <= |mask| == |scores| && true !in mask
    ensures Best(mask, scores, n) == -1
    ensures Transcript(mask, scores, n) == [] && Comparisons(mask, n) == 0
  {
    if n > 0 {
      NothingFeasible(mask, scores, n - 1);
      assert mask[n - 1] in mask;
    }
  }

  /** `_secure_argmax`: phase 1, then the sequential max-tree over the feasible candidates. */
  method Run(p: Problem, book: Bookkeeping) returns (bestIndex: int, allocation: Option<real>, anyFeasible: bool)
    requires p.LogsInRange()
    modifies book
    ensures anyFeasible <==> exists i: nat :: i < LEVELS && p.Feasible(i)
    ensures bestIndex == Best(p.Mask(), p.Scores(), LEVELS)
    ensures allocation == if bestIndex >= 0 then Some(p.Quantity(bestIndex)) else None
    ensures book.chunks == old(book.chunks) + SumChunks(LEVELS) + Transcript(p.Mask(), p.Scores(), LEVELS)
    ensures book.comparisonsRun == old(book.comparisonsRun) + Comparisons(p.Mask(), LEVELS)
    ensures book.roundsUsed == old(book.roundsUsed) + LEVELS + Comparisons(p.Mask(), LEVELS)
    ensures book.triplesConsumed == old(book.triplesConsumed)
  {
    hide Mod, Reconstruct, Problem.Score, Problem.Feasible, Problem.LogsInRange;
    var mask, shared := ShareAll(p, book);
    ghost var scores := p.Scores();
    forall i: nat | i < LEVELS
      ensures mask[i] == p.Feasible(i) && scores[i] == p.Score(i)
    {
    }
    BestIsFirstMaximum(mask, scores, LEVELS);
    if true !in mask {
      NothingFeasible(mask, scores, LEVELS);
      return -1, None, false;
    }
    forall i, j | 0 <= i < LEVELS && 0 <= j < LEVELS && mask[i] && mask[j]
      ensures -MAX_GAP <= scores[i] - scores[j] <= MAX_GAP
    {
      p.ScoreBound(i);
      p.ScoreBound(j);
    }
    bestIndex := MaxTree(mask, shared, scores, book);
    allocation, anyFeasible := Some(p.Quantity(bestIndex)), true;
  }
}
