/** The field of the MPC mechanism: fixed-point encoding, additive shares, Beaver triples. */
module Field {
  import opened Numeric

  const PRIME: int := 2305843009213693951  // 2^61 - 1
  const SCALE: int := 4294967296           // 2^32
  const HALF: int := 1152921504606846975   // PRIME / 2

  type Elem = x: int | 0 <= x < PRIME

  function Mod(x: int): Elem {
    x % PRIME
  }

  // ---- congruence: the arithmetic every share identity below rests on

  lemma ModShift(x: int, k: int)
    ensures Mod(x + k * PRIME) == Mod(x)
  {
  }

  ghost predicate Multiple(x: int, y: int, k: int) {
    x == y + k * PRIME
  }

  ghost predicate Congruent(x: int, y: int) {
    exists k: int :: Multiple(x, y, k)
  }

  lemma CongruentMod(x: int, y: int)
    ensures Congruent(x, y) <==> Mod(x) == Mod(y)
  {
    if Congruent(x, y) {
      var k :| Multiple(x, y, k);
      ModShift(y, k);
    }
    if Mod(x) == Mod(y) {
      assert Multiple(x, y, x / PRIME - y / PRIME);
    }
  }

  lemma ModSelf(x: int)
    ensures Congruent(Mod(x), x)
  {
    assert Multiple(Mod(x), x, -(x / PRIME));
  }

  lemma CongruentAdd(x: int, x': int, y: int, y': int)
    requires Congruent(x, x') && Congruent(y, y')
    ensures Congruent(x + y, x' + y') && Congruent(x - y, x' - y')
  {
    var k :| Multiple(x, x', k);
    var m :| Multiple(y, y', m);
    assert Multiple(x + y, x' + y', k + m);
    assert Multiple(x - y, x' - y', k - m);
  }

  lemma CongruentMul(x: int, x': int, y: int, y': int)
    requires Congruent(x, x') && Congruent(y, y')
    ensures Congruent(x * y, x' * y')
  {
    var k :| Multiple(x, x', k);
    var m :| Multiple(y, y', m);
    var j := x' * m + k * y;
    assert x * y == x' * y + k * PRIME * y;
    assert x' * y == x' * y' + x' * (m * PRIME);
    assert Multiple(x * y, x' * y', j);
  }

  lemma CongruentTrans(x: int, y: int, z: int)
    requires Congruent(x, y) && Congruent(y, z)
    ensures Congruent(x, z) && Congruent(y, x)
  {
    CongruentMod(x, y);
    CongruentMod(y, z);
    CongruentMod(x, z);
    CongruentMod(y, x);
  }

  // ---- fixed point

  /** `int(round(value * SCALE))` before the reduction. */
  function Scaled(value: real): int {
    RoundHalfEven(value * SCALE as real)
  }

  function Encode(value: real): Elem {
    Mod(Scaled(value))
  }

  /** The signed representative: the upper half of the field stands for negatives. */
  function Signed(x: Elem): int {
    if x > HALF then x - PRIME else x
  }

  function Decode(x: Elem): real {
    Signed(x) as real / SCALE as real
  }

  lemma SignedOfMod(x: int)
    requires -HALF <= x <= HALF
    ensures Signed(Mod(x)) == x
  {
  }

  /** Signed decoding undoes the encoding up to half a unit in the last place, while it fits. */
  lemma DecodeEncode(value: real)
    requires -HALF <= Scaled(value) <= HALF
    ensures value - 0.5 / SCALE as real <= Decode(Encode(value)) <= value + 0.5 / SCALE as real
  {
    SignedOfMod(Scaled(value));
  }

  /** The sentinel log-value for candidates below a walk-away value. */
  const LOG_INFEASIBLE: real := -1000000000.0

  /**
   * The sentinel does not fit the field: decoded on its own it is a large positive log, not a
   * large negative one. Only the feasibility mask keeps it out of the comparisons.
   */
  lemma SentinelWrapsPositive()
    ensures Scaled(LOG_INFEASIBLE) < -HALF
    ensures Decode(Encode(LOG_INFEASIBLE)) > 73000000.0
  {
    RoundOfInteger(-4294967296000000000);
    assert LOG_INFEASIBLE * SCALE as real == -4294967296000000000.0;
    assert Mod(-4294967296000000000) == 316718722427387902;
  }

  // ---- additive shares

  function Total(shares: seq<int>): int {
    if |shares| == 0 then 0 else Total(shares[..|shares| - 1]) + shares[|shares| - 1]
  }

  /** `split_share` on the random draws it consumes; fewer than two parties is the ValueError. */
  function SplitShare(value: int, nParties: int, draws: seq<Elem>): Result<seq<Elem>, string>
    requires nParties >= 2 ==> |draws| == nParties - 1
  {
    if nParties < 2 then Err("additive secret sharing requires at least 2 parties")
    else Ok(draws + [Mod(value - Total(draws))])
  }

  /** Two parties at least; the first n - 1 shares are the draws themselves. */
  lemma SplitIs(value: int, nParties: int, draws: seq<Elem>)
    requires nParties >= 2 ==> |draws| == nParties - 1
    ensures SplitShare(value, nParties, draws).Err? <==> nParties <= 1
    ensures nParties >= 2 ==> |SplitShare(value, nParties, draws).value| == nParties && draws <= SplitShare(value, nParties, draws).value
  {
  }

  function Reconstruct(shares: seq<int>): Elem {
    Mod(Total(shares))
  }

  lemma TotalAppend(shares: seq<int>, x: int)
    ensures Total(shares + [x]) == Total(shares) + x
  {
    assert (shares + [x])[..|shares|] == shares;
  }

  /** Reconstruction undoes splitting for any number of parties and any randomness. */
  lemma ReconstructSplit(value: int, nParties: int, draws: seq<Elem>)
    requires nParties >= 2 && |draws| == nParties - 1
    ensures Reconstruct(SplitShare(value, nParties, draws).value) == Mod(value)
  {
    var t := Total(draws);
    TotalAppend(draws, Mod(value - t));
    ModSelf(value - t);
    CongruentMod(t, t);
    CongruentAdd(t, t, Mod(value - t), value - t);
    CongruentMod(t + Mod(value - t), value);
  }

  lemma {:induction false} TotalUpdate(s: seq<int>, j: nat, x: int)
    requires j < |s|
    ensures Total(s[j := x]) == Total(s) - s[j] + x
  {
    var n := |s| - 1;
    if j < n {
      TotalUpdate(s[..n], j, x);
      assert s[j := x][..n] == s[..n][j := x];
    } else {
      assert s[j := x][..n] == s[..n];
    }
  }

  /** A view: every share but the one at position j. */
  function Without(shares: seq<Elem>, j: nat): seq<Elem>
    requires j < |shares|
  {
    shares[..j] + shares[j + 1..]
  }

  /** The draws that would show `view` to the parties other than j. */
  function DrawsShowing(value: int, view: seq<Elem>, j: nat): seq<Elem>
    requires |view| > 0 && j <= |view|
  {
    var n := |view|;
    if j == n then view
    else view[..j] + [Mod(value - Total(view))] + view[j..n - 1]
  }

  lemma {:induction false} TotalConcat(s: seq<int>, t: seq<int>)
    ensures Total(s + t) == Total(s) + Total(t)
  {
    if |t| == 0 {
      assert s + t == s;
    } else {
      var n := |t| - 1;
      TotalConcat(s, t[..n]);
      assert (s + t)[..|s + t| - 1] == s + t[..n];
    }
  }

  lemma Reassemble(draws: seq<Elem>, view: seq<Elem>, j: nat, x: Elem)
    requires j < |view| == |draws|
    ensures (draws[..j] + draws[j + 1..] == view[..|view| - 1] && draws[j] == x)
       <==> draws == view[..j] + [x] + view[j..|view| - 1]
  {
    var n := |view|;
    var init := view[..n - 1];
    if draws[..j] + draws[j + 1..] == init && draws[j] == x {
      assert draws[..j] == init[..j] == view[..j];
      assert draws[j + 1..] == init[j..] == view[j..n - 1];
      assert draws == draws[..j] + [draws[j]] + draws[j + 1..];
    }
    if draws == view[..j] + [x] + view[j..n - 1] {
      assert draws[..j] == view[..j] && draws[j] == x && draws[j + 1..] == view[j..n - 1];
      assert init == view[..j] + view[j..n - 1];
    }
  }

  lemma SplitAt(s: seq<int>, j: nat)
    requires j < |s|
    ensures Total(s) == Total(s[..j] + s[j + 1..]) + s[j]
  {
    hide Total;
    var left, right := s[..j], s[j + 1..];
    TotalConcat(left + [s[j]], right);
    TotalAppend(left, s[j]);
    TotalConcat(left, right);
    assert s == left + [s[j]] + right;
  }

  /** x is what value leaves after rest and y exactly when y is what it leaves after rest and x. */
  lemma ResidualSwap(value: int, rest: int, x: Elem, y: Elem)
    requires y == Mod(value - (rest + x))
    ensures x == Mod(value - (rest + y))
  {
  }

  /**
   * Hiding: whichever single share is withheld, every possible view of the others arises from
   * exactly one choice of the random draws, whatever the secret. Uniform draws therefore make
   * the view uniform and independent of the value.
   */
  lemma EveryViewFromOneDraw(value: int, view: seq<Elem>, j: nat, draws: seq<Elem>)
    requires |view| > 0 && j <= |view| && |draws| == |view|
    ensures Without(SplitShare(value, |view| + 1, draws).value, j) == view
       <==> draws == DrawsShowing(value, view, j)
  {
    hide Total, Mod;
    var n := |view|;
    var last := Mod(value - Total(draws));
    if j == n {
      assert Without(draws + [last], n) == draws;
    } else {
      var rest := draws[..j] + draws[j + 1..];
      assert Without(draws + [last], j) == rest + [last];
      assert rest + [last] == view <==> rest == view[..n - 1] && last == view[n - 1];
      SplitAt(draws, j);
      assert view == view[..n - 1] + [view[n - 1]];
      TotalAppend(view[..n - 1], view[n - 1]);
      ResidualSwap(value, Total(rest), draws[j], last);
      ResidualSwap(value, Total(rest), view[n - 1], Mod(value - (Total(rest) + view[n - 1])));
      Reassemble(draws, view, j, Mod(value - Total(view)));
    }
  }

  function AddMod(a: int, b: int): Elem {
    Mod(a + b)
  }

  function SecureAdd(x: seq<Elem>, y: seq<Elem>): Result<seq<Elem>, string> {
    if |x| != |y| then Err("share lists must have the same length")
    else Ok(seq(|x|, i requires 0 <= i < |x| => AddMod(x[i], y[i])))
  }

  lemma {:induction false} TotalOfSums(z: seq<int>, x: seq<int>, y: seq<int>)
    requires |z| == |x| == |y|
    requires forall i :: 0 <= i < |z| ==> z[i] == AddMod(x[i], y[i])
    ensures Congruent(Total(z), Total(x) + Total(y))
  {
    if |z| == 0 {
      assert Multiple(0, 0, 0);
    } else {
      var n := |z| - 1;
      TotalOfSums(z[..n], x[..n], y[..n]);
      ModSelf(x[n] + y[n]);
      CongruentAdd(Total(z[..n]), Total(x[..n]) + Total(y[..n]), z[n], x[n] + y[n]);
    }
  }

  /** Adding share by share adds the secrets, for any number of parties. */
  lemma SecureAddIsHomomorphic(x: seq<Elem>, y: seq<Elem>)
    requires |x| == |y|
    ensures Reconstruct(SecureAdd(x, y).value) == AddMod(Reconstruct(x), Reconstruct(y))
  {
    var z := SecureAdd(x, y).value;
    TotalOfSums(z, x, y);
    CongruentMod(Total(z), Total(x) + Total(y));
    ModSelf(Total(x));
    ModSelf(Total(y));
    var a: int, b: int := Reconstruct(x), Reconstruct(y);
    CongruentAdd(a, Total(x), b, Total(y));
    CongruentMod(a + b, Total(x) + Total(y));
  }
}
