/** Two-party secure multiplication and the sign-revealing comparison. */
module Beaver {
  import opened Numeric
  import opened Field

  datatype Triple = Triple(a: seq<Elem>, b: seq<Elem>, c: seq<Elem>) {
    /** Two shares of each factor, and of their product. */
    ghost predicate Valid() {
      && |a| == |b| == |c| == 2
      && Congruent(Total(c), Total(a) * Total(b))
    }
  }

  lemma TotalOfTwo(s: seq<int>)
    requires |s| == 2
    ensures Total(s) == s[0] + s[1]
  {
    assert s == [s[0]] + [s[1]];
    TotalAppend([s[0]], s[1]);
    assert Total([s[0]]) == Total([]) + s[0];
  }

  function SubMod(x: int, y: int): Elem {
    Mod(x - y)
  }

  /** Share i of the product, from the public epsilon and delta. */
  function MulShare(t: Triple, epsilon: int, delta: int, i: nat): Elem
    requires |t.a| == |t.b| == |t.c| == 2 && i < 2
  {
    var z := Mod(t.c[i] as int + epsilon * t.b[i] + delta * t.a[i]);
    if i == 0 then AddMod(z, epsilon * delta) else z
  }

  /** Reconstructing the share-wise differences opens the difference of the secrets. */
  lemma MaskedDifference(x: seq<Elem>, a: seq<Elem>, d: seq<Elem>)
    requires |x| == |a| == |d| == 2
    requires forall i :: 0 <= i < 2 ==> d[i] == SubMod(x[i], a[i])
    ensures Congruent(Reconstruct(d), Total(x) - Total(a))
  {
    TotalOfTwo(x);
    TotalOfTwo(a);
    TotalOfTwo(d);
    ModSelf(x[0] as int - a[0] as int);
    ModSelf(x[1] as int - a[1] as int);
    CongruentAdd(d[0], x[0] as int - a[0] as int, d[1], x[1] as int - a[1] as int);
    ModSelf(Total(d));
    CongruentTrans(Reconstruct(d), Total(d), Total(x) - Total(a));
  }

  lemma Distribute(k: int, x: int, y: int)
    ensures k * (x + y) == k * x + k * y
  {
  }

  lemma Regroup(epsilon: int, delta: int, a0: int, a1: int, b0: int, b1: int, c0: int, c1: int, w0: int, w1: int)
    requires w0 == c0 + epsilon * b0 + delta * a0 && w1 == c1 + epsilon * b1 + delta * a1
    ensures w0 + w1 == c0 + c1 + epsilon * (b0 + b1) + delta * (a0 + a1)
  {
    Distribute(epsilon, b0, b1);
    Distribute(delta, a0, a1);
  }

  lemma ProductShares(t: Triple, epsilon: int, delta: int, z: seq<Elem>)
    requires t.Valid() && |z| == 2
    requires forall i :: 0 <= i < 2 ==> z[i] == MulShare(t, epsilon, delta, i)
    ensures Congruent(Total(z), Total(t.c) + epsilon * Total(t.b) + delta * Total(t.a) + epsilon * delta)
  {
    hide Mod, Congruent, Total;
    TotalOfTwo(z);
    TotalOfTwo(t.a);
    TotalOfTwo(t.b);
    TotalOfTwo(t.c);
    var ed := epsilon * delta;
    var w0 := t.c[0] as int + epsilon * t.b[0] + delta * t.a[0];
    var w1 := t.c[1] as int + epsilon * t.b[1] + delta * t.a[1];
    ModSelf(w0);
    ModSelf(w1);
    CongruentMod(ed, ed);
    CongruentAdd(Mod(w0), w0, ed, ed);
    ModSelf(Mod(w0) as int + ed);
    CongruentTrans(z[0], Mod(w0) as int + ed, w0 + ed);
    CongruentAdd(z[0], w0 + ed, z[1], w1);
    Regroup(epsilon, delta, t.a[0], t.a[1], t.b[0], t.b[1], t.c[0], t.c[1], w0, w1);
  }

  lemma CongruentRefl(x: int)
    ensures Congruent(x, x)
  {
    assert Multiple(x, x, 0);
  }

  lemma Expand(x: int, y: int, a: int, b: int)
    ensures a * b + (x - a) * b + (y - b) * a + (x - a) * (y - b) == x * y
  {
  }

  /** c + epsilon*b + delta*a + epsilon*delta is x*y when epsilon = x-a, delta = y-b, c = a*b. */
  lemma BeaverIdentity(t: Triple, x: int, y: int, epsilon: int, delta: int, z: seq<Elem>)
    requires t.Valid()
    requires Congruent(epsilon, x - Total(t.a)) && Congruent(delta, y - Total(t.b))
    requires Congruent(Total(z), Total(t.c) + epsilon * Total(t.b) + delta * Total(t.a) + epsilon * delta)
    ensures Reconstruct(z) == Mod(Mod(x) as int * Mod(y) as int)
  {
    hide Mod, Congruent, Total;
    var a, b, c := Total(t.a), Total(t.b), Total(t.c);
    CongruentRefl(a);
    CongruentRefl(b);
    CongruentMul(epsilon, x - a, b, b);
    CongruentMul(delta, y - b, a, a);
    CongruentMul(epsilon, x - a, delta, y - b);
    CongruentAdd(c, a * b, epsilon * b, (x - a) * b);
    CongruentAdd(c + epsilon * b, a * b + (x - a) * b, delta * a, (y - b) * a);
    CongruentAdd(c + epsilon * b + delta * a, a * b + (x - a) * b + (y - b) * a, epsilon * delta, (x - a) * (y - b));
    Expand(x, y, a, b);
    CongruentTrans(Total(z), c + epsilon * b + delta * a + epsilon * delta, x * y);
    ModSelf(x);
    ModSelf(y);
    CongruentMul(Mod(x), x, Mod(y), y);
    CongruentTrans(Mod(x) as int * Mod(y) as int, x * y, x * y) by { CongruentRefl(x * y); }
    CongruentTrans(Total(z), x * y, Mod(x) as int * Mod(y) as int);
    CongruentMod(Total(z), Mod(x) as int * Mod(y) as int);
  }

  /** `secure_mul`; any share list that is not a pair is the ValueError. */
  method SecureMul(x: seq<Elem>, y: seq<Elem>, triple: Triple) returns (r: Result<seq<Elem>, string>)
    requires triple.Valid()
    ensures r.Err? <==> |x| != 2 || |y| != 2
    ensures r.Ok? ==> |r.value| == 2 && Reconstruct(r.value) == Mod(Reconstruct(x) as int * Reconstruct(y) as int)
  {
    if |x| != 2 || |y| != 2 {
      return Err("secure_mul is implemented for n_parties=2");
    }
    var epsilonShares := [SubMod(x[0], triple.a[0]), SubMod(x[1], triple.a[1])];
    var deltaShares := [SubMod(y[0], triple.b[0]), SubMod(y[1], triple.b[1])];
    var epsilon := Reconstruct(epsilonShares);
    var delta := Reconstruct(deltaShares);
    var z: seq<Elem> := [];
    for i := 0 to 2
      invariant |z| == i
      invariant forall k :: 0 <= k < i ==> z[k] == MulShare(triple, epsilon, delta, k)
    {
      var zi := Mod(triple.c[i] as int + epsilon as int * triple.b[i] as int + delta as int * triple.a[i] as int);
      if i == 0 {
        zi := AddMod(zi, epsilon as int * delta as int);
      }
      z := z + [zi];
    }
    MaskedDifference(x, triple.a, epsilonShares);
    MaskedDifference(y, triple.b, deltaShares);
    ProductShares(triple, epsilon, delta, z);
    BeaverIdentity(triple, Total(x), Total(y), epsilon, delta, z);
    r := Ok(z);
  }

  // ---- comparison

  /** `secure_compare_sign_revealing` for one blinding factor. */
  function Compare(x: seq<Elem>, y: seq<Elem>, r: int): bool
    requires |x| == 2 && |y| == 2
  {
    var d0, d1 := SubMod(x[0], y[0]), SubMod(x[1], y[1]);
    Signed(Reconstruct([Mod(r * d0), Mod(r * d1)])) > 0
  }

  /** Reconstructing the blinded difference of two shared scores gives r times their difference. */
  lemma BlindedDifference(x: seq<Elem>, y: seq<Elem>, r: int, sx: int, sy: int)
    requires |x| == 2 && |y| == 2
    requires Reconstruct(x) == Mod(sx) && Reconstruct(y) == Mod(sy)
    ensures Reconstruct([Mod(r * SubMod(x[0], y[0])), Mod(r * SubMod(x[1], y[1]))]) == Mod(r * (sx - sy))
  {
    hide Mod, Congruent;
    var d := [SubMod(x[0], y[0]), SubMod(x[1], y[1])];
    var e := [Mod(r * d[0]), Mod(r * d[1])];
    MaskedDifference(x, y, d);
    ModSelf(Total(d));
    CongruentMod(Total(x), sx);
    CongruentMod(Total(y), sy);
    CongruentAdd(Total(x), sx, Total(y), sy);
    CongruentTrans(Reconstruct(d), Total(x) - Total(y), sx - sy);
    CongruentTrans(Reconstruct(d), Total(d), Total(d)) by { CongruentRefl(Total(d)); }
    CongruentTrans(Total(d), Reconstruct(d), sx - sy);
    CongruentRefl(r);
    CongruentMul(r, r, Total(d), sx - sy);
    TotalOfTwo(d);
    TotalOfTwo(e);
    ModSelf(r * d[0]);
    ModSelf(r * d[1]);
    CongruentAdd(e[0], r * d[0], e[1], r * d[1]);
    Distribute(r, d[0], d[1]);
    CongruentTrans(Total(e), r * Total(d), r * (sx - sy));
    CongruentMod(Total(e), r * (sx - sy));
  }

  /** While the blinded difference fits half the field, the comparison is the true one. */
  lemma CompareIsGreater(x: seq<Elem>, y: seq<Elem>, r: int, sx: int, sy: int)
    requires |x| == 2 && |y| == 2 && r > 0
    requires Reconstruct(x) == Mod(sx) && Reconstruct(y) == Mod(sy)
    requires -HALF <= r * (sx - sy) <= HALF
    ensures Compare(x, y, r) <==> sx > sy
  {
    hide Mod, Signed;
    var d := r * (sx - sy);
    BlindedDifference(x, y, r, sx, sy);
    SignedOfMod(d);
    assert d > 0 <==> sx - sy > 0;
  }

  /** In general the comparison looks at where the blinded difference lands in the field. */
  lemma CompareIff(x: seq<Elem>, y: seq<Elem>, r: int, sx: int, sy: int)
    requires |x| == 2 && |y| == 2
    requires Reconstruct(x) == Mod(sx) && Reconstruct(y) == Mod(sy)
    ensures Compare(x, y, r) <==> 0 < Mod(r * (sx - sy)) <= HALF
  {
    hide Mod;
    BlindedDifference(x, y, r, sx, sy);
  }
}
