/** What the formula language's constructs mean, in the arithmetic of their operands' values. */
module FormulaMeaning {
  import opened Numeric
  import opened Formula

  lemma Remainder(y: real, part: real, rest: real)
    requires 0.0 <= part < 1.0 && rest == part * y
    ensures y > 0.0 ==> 0.0 <= rest < y
    ensures y < 0.0 ==> y < rest <= 0.0
  {
    if y > 0.0 {
      MulMonotone(0.0, part, y);
      MulStrict(part, 1.0, y);
    } else if y < 0.0 {
      MulMonotone(0.0, part, -y);
      MulStrict(part, 1.0, -y);
    }
  }

  lemma QuotientParts(x: real, y: real, d: real, q: real)
    requires y != 0.0 && d == x / y && q == d.Floor as real
    ensures x - y * q == (d - q) * y
  {
    DivMul(x, y);
    assert d * y == x;
    assert (d - q) * y == d * y - q * y;
  }

  /** Python's `//` and `%`: the quotient is whole and the remainder has the divisor's sign. */
  lemma FloorAndRemainder(m: Math, x: real, y: real)
    requires y != 0.0
    ensures var q, r := ApplyBinary(m, FloorDiv, x, y), ApplyBinary(m, Modulo, x, y);
      && q.Ok? && r.Ok? && q.value.Floor as real == q.value && r.value == x - y * q.value
      && (y > 0.0 ==> 0.0 <= r.value < y) && (y < 0.0 ==> y < r.value <= 0.0)
  {
    var d := x / y;
    var q: real := d.Floor as real;
    QuotientParts(x, y, d, q);
    Remainder(y, d - q, x - y * q);
  }

  /** Two operands with values: what the arithmetic operators make of them. */
  lemma ArithmeticMeans(m: Math, l: Expr, r: Expr, ns: Namespace, depth: nat, x: real, y: real)
    requires depth <= MAX_CALL_DEPTH && Eval(m, l, ns, depth) == Ok(x) && Eval(m, r, ns, depth) == Ok(y)
    ensures Eval(m, Binary(Add, l, r), ns, depth) == Ok(x + y)
    ensures Eval(m, Binary(Sub, l, r), ns, depth) == Ok(x - y)
    ensures Eval(m, Binary(Mult, l, r), ns, depth) == Ok(x * y)
    ensures y == 0.0 ==> forall op :: op in {Div, FloorDiv, Modulo} ==> Eval(m, Binary(op, l, r), ns, depth) == Err(DivisionByZero)
    ensures y != 0.0 ==>
      && Eval(m, Binary(Div, l, r), ns, depth) == Ok(x / y)
      && Eval(m, Binary(FloorDiv, l, r), ns, depth) == ApplyBinary(m, FloorDiv, x, y)
      && Eval(m, Binary(Modulo, l, r), ns, depth) == ApplyBinary(m, Modulo, x, y)
    ensures Eval(m, Binary(Pow, l, r), ns, depth) ==
      if y > 10.0 || y < -10.0 then Err(PowLimit) else if m.pow(x, y).Some? then Ok(m.pow(x, y).value) else Err(MathDomain)
    ensures Eval(m, Unary(UAdd, l), ns, depth) == Ok(x)
    ensures Eval(m, Unary(USub, l), ns, depth) == Ok(-x)
    ensures Eval(m, Unary(Not, l), ns, depth) == Ok(if x == 0.0 then 1.0 else 0.0)
  {
  }

  /** Operators off the whitelist have no meaning, whatever their operands. */
  lemma ForeignOperators(m: Math, l: Expr, r: Expr, ns: Namespace, depth: nat, x: real, y: real)
    requires depth <= 5 && Eval(m, l, ns, depth) == Ok(x) && Eval(m, r, ns, depth) == Ok(y)
    ensures Eval(m, Binary(OtherBinary, l, r), ns, depth) == Err(OperatorNotAllowed)
    ensures Eval(m, Unary(OtherUnary, l), ns, depth) == Err(OperatorNotAllowed)
    ensures Eval(m, Compare(l, [OtherCompare], [r]), ns, depth) == Err(OperatorNotAllowed)
  {
  }

  /** Constants are themselves; a name is its value, unless it is a function or nothing at all. */
  lemma AtomsMean(m: Math, v: real, id: string, ns: Namespace, depth: nat)
    requires depth <= 5
    ensures Eval(m, Constant(v), ns, depth) == Ok(v)
    ensures Eval(m, OddConstant, ns, depth) == Err(BadConstant)
    ensures Eval(m, Name(id), ns, depth) ==
      if id in {"min", "max", "abs", "sqrt", "log", "exp", "clip", "pow"} then Err(FunctionAsValue(id))
      else if id in ns then Ok(ns[id])
      else Err(UnknownVariable(id))
  {
  }

  /** What is never evaluated: an indirect or unlisted call, keywords, and anything that is not an expression. */
  lemma RefusedAtEvaluation(m: Math, e: Expr, ns: Namespace, depth: nat)
    requires depth <= 5
    ensures e.Call? && !e.func.Name? ==> Eval(m, e, ns, depth) == Err(CalleeNotAllowed)
    ensures e.Call? && e.func.Name? && e.func.id !in FUNCTIONS ==> Eval(m, e, ns, depth) == Err(CalleeNotAllowed)
    ensures e.Call? && e.func.Name? && e.func.id in FUNCTIONS && e.keywords != [] ==> Eval(m, e, ns, depth) == Err(KeywordArguments)
    ensures e.Group? || e.Foreign? ==> Eval(m, e, ns, depth) == Err(NotAValue)
  {
  }

  predicate Related(op: CompareOp, x: real, y: real) {
    match op
    case Lt => x < y
    case LtE => !(y < x)
    case Gt => y < x
    case GtE => !(x < y)
    case Eq => !(x < y) && !(y < x)
    case NotEq => x < y || y < x
    case OtherCompare => false
  }

  /** The two orderings, in any direction, and equality: 1 or 0. */
  lemma ComparisonMeans(m: Math, l: Expr, r: Expr, ns: Namespace, depth: nat, x: real, y: real)
    requires depth <= MAX_CALL_DEPTH && Eval(m, l, ns, depth) == Ok(x) && Eval(m, r, ns, depth) == Ok(y)
    ensures forall op :: op != OtherCompare ==> Eval(m, Compare(l, [op], [r]), ns, depth) == Ok(if Related(op, x, y) then 1.0 else 0.0)
  {
    forall op | op != OtherCompare
      ensures Eval(m, Compare(l, [op], [r]), ns, depth) == Ok(if Related(op, x, y) then 1.0 else 0.0)
    {
      var ops, cs := [op], [r];
      assert ops[1..] == [] && cs[1..] == [];
      assert EvalChain(m, y, ops[1..], cs[1..], ns, depth) == Ok(1.0);
    }
  }

  /** A conditional evaluates its test and one branch; what the other branch would do does not matter. */
  lemma ConditionalIsLazy(m: Math, test: Expr, chosen: Expr, other: Expr, ns: Namespace, depth: nat, c: real)
    requires depth <= MAX_CALL_DEPTH && Eval(m, test, ns, depth) == Ok(c)
    ensures c != 0.0 ==> Eval(m, IfExp(test, chosen, other), ns, depth) == Eval(m, chosen, ns, depth)
    ensures c == 0.0 ==> Eval(m, IfExp(test, other, chosen), ns, depth) == Eval(m, chosen, ns, depth)
  {
  }

  /** Member i fails with the error, and nothing before it fails. */
  ghost predicate FailsFirst(m: Math, es: seq<Expr>, ns: Namespace, depth: nat, i: int, error: EvalError) {
    && 0 <= i < |es| && Eval(m, es[i], ns, depth) == Err(error)
    && forall j :: 0 <= j < i ==> Eval(m, es[j], ns, depth).Ok?
  }

  /** Values of a list: one for one, or the error of its first failing member. */
  lemma {:induction false} ListMeans(m: Math, es: seq<Expr>, ns: Namespace, depth: nat)
    ensures var r := EvalAll(m, es, ns, depth);
      && (r.Ok? ==> |r.value| == |es| && forall i :: 0 <= i < |es| ==> Eval(m, es[i], ns, depth) == Ok(r.value[i]))
      && (r.Err? ==> exists i :: FailsFirst(m, es, ns, depth, i, r.error))
    decreases |es|
  {
    hide Eval;
    if es != [] {
      var r, rest := EvalAll(m, es, ns, depth), EvalAll(m, es[1..], ns, depth);
      ListMeans(m, es[1..], ns, depth);
      if Eval(m, es[0], ns, depth).Err? {
        assert FailsFirst(m, es, ns, depth, 0, r.error);
      } else if rest.Err? {
        var i :| FailsFirst(m, es[1..], ns, depth, i, rest.error);
        assert forall j :: 0 < j < i + 1 ==> es[j] == es[1..][j - 1];
        assert FailsFirst(m, es, ns, depth, i + 1, r.error);
      } else {
        assert forall i :: 0 < i < |es| ==> es[i] == es[1..][i - 1];
      }
    }
  }

  /** `and` and `or` evaluate every operand, and then ask whether all, or any, are non-zero. */
  lemma BooleanMeans(m: Math, op: BoolOperator, vs: seq<Expr>, ns: Namespace, depth: nat)
    requires depth <= MAX_CALL_DEPTH
    ensures var r := Eval(m, Boolean(op, vs), ns, depth);
      && (r.Ok? <==> forall i :: 0 <= i < |vs| ==> Eval(m, vs[i], ns, depth).Ok?)
      && (r.Ok? && op == And ==>
           r.value == if forall i :: 0 <= i < |vs| ==> Eval(m, vs[i], ns, depth) != Ok(0.0) then 1.0 else 0.0)
      && (r.Ok? && op == Or ==>
           r.value == if forall i :: 0 <= i < |vs| ==> Eval(m, vs[i], ns, depth) == Ok(0.0) then 0.0 else 1.0)
  {
    ListMeans(m, vs, ns, depth);
    var xs := EvalAll(m, vs, ns, depth);
    if xs.Ok? {
      if 0.0 in xs.value {
        var i :| 0 <= i < |vs| && xs.value[i] == 0.0;
        assert Eval(m, vs[i], ns, depth) == Ok(0.0);
      }
      if i :| 0 <= i < |vs| && xs.value[i] != 0.0 {
        assert Eval(m, vs[i], ns, depth) != Ok(0.0);
      }
    }
  }

  /** The links of a chain over the values of its operands. */
  ghost predicate AllLinks(ops: seq<CompareOp>, xs: seq<real>)
    requires |xs| == |ops| + 1
  {
    forall i :: 0 <= i < |ops| ==> Related(ops[i], xs[i], xs[i + 1])
  }

  lemma NoLinks(left: real)
    ensures AllLinks([], [left])
  {
  }

  lemma FirstLink(ops: seq<CompareOp>, left: real, xs: seq<real>)
    requires |ops| == |xs| > 0
    ensures AllLinks(ops, [left] + xs) <==> Related(ops[0], left, xs[0]) && AllLinks(ops[1..], [xs[0]] + xs[1..])
  {
    hide Related;
    var all, rest := [left] + xs, [xs[0]] + xs[1..];
    assert forall i :: 0 <= i < |rest| ==> rest[i] == all[i + 1];
    if Related(ops[0], left, xs[0]) && AllLinks(ops[1..], rest) {
      forall i | 0 <= i < |ops|
        ensures Related(ops[i], all[i], all[i + 1])
      {
        assert i > 0 ==> Related(ops[1..][i - 1], rest[i - 1], rest[i]);
      }
    }
    if AllLinks(ops, all) {
      assert Related(ops[0], all[0], all[1]);
      forall i | 0 <= i < |ops[1..]|
        ensures Related(ops[1..][i], rest[i], rest[i + 1])
      {
        assert Related(ops[i + 1], all[i + 1], all[i + 2]);
      }
    }
  }

  /** With operands that have values, a chained comparison is the conjunction of its links. */
  lemma {:induction false} ChainIsConjunction(m: Math, left: real, ops: seq<CompareOp>, cs: seq<Expr>, ns: Namespace, depth: nat, xs: seq<real>)
    requires |ops| == |cs| == |xs| && OtherCompare !in ops
    requires forall i :: 0 <= i < |cs| ==> Eval(m, cs[i], ns, depth) == Ok(xs[i])
    ensures EvalChain(m, left, ops, cs, ns, depth) == Ok(if AllLinks(ops, [left] + xs) then 1.0 else 0.0)
    decreases |ops|
  {
    hide Eval, AllLinks;
    if ops == [] {
      NoLinks(left);
      assert [left] + xs == [left];
    } else {
      assert forall i :: 0 <= i < |cs[1..]| ==> cs[1..][i] == cs[i + 1] && xs[1..][i] == xs[i + 1];
      ChainIsConjunction(m, xs[0], ops[1..], cs[1..], ns, depth, xs[1..]);
      FirstLink(ops, left, xs);
    }
  }

  /** The first false link decides; nothing to its right is looked at. */
  lemma FalseLinkStops(m: Math, left: real, op: CompareOp, ops: seq<CompareOp>, c: Expr, cs: seq<Expr>, ns: Namespace, depth: nat, y: real)
    requires Eval(m, c, ns, depth) == Ok(y) && op != OtherCompare && !Related(op, left, y)
    ensures EvalChain(m, left, [op] + ops, [c] + cs, ns, depth) == Ok(0.0)
  {
  }

  // ---- the whitelisted functions

  lemma {:induction false} MinIsLeast(xs: seq<real>)
    requires |xs| > 0
    ensures MinOf(xs) in xs && forall x :: x in xs ==> MinOf(xs) <= x
  {
    if |xs| > 1 {
      var front := xs[..|xs| - 1];
      MinIsLeast(front);
      assert xs == front + [xs[|xs| - 1]];
    }
  }

  lemma {:induction false} MaxIsGreatest(xs: seq<real>)
    requires |xs| > 0
    ensures MaxOf(xs) in xs && forall x :: x in xs ==> x <= MaxOf(xs)
  {
    if |xs| > 1 {
      var front := xs[..|xs| - 1];
      MaxIsGreatest(front);
      assert xs == front + [xs[|xs| - 1]];
    }
  }

  /** `min` and `max` need two arguments and return the least and the greatest of them. */
  lemma ExtremaMean(m: Math, xs: seq<real>)
    ensures |xs| < 2 ==> Apply(m, "min", xs) == Err(BadArguments) && Apply(m, "max", xs) == Err(BadArguments)
    ensures |xs| >= 2 ==>
      Apply(m, "min", xs).Ok? && Apply(m, "min", xs).value in xs && forall x :: x in xs ==> Apply(m, "min", xs).value <= x
    ensures |xs| >= 2 ==>
      Apply(m, "max", xs).Ok? && Apply(m, "max", xs).value in xs && forall x :: x in xs ==> x <= Apply(m, "max", xs).value
  {
    if |xs| >= 2 {
      MinIsLeast(xs);
      MaxIsGreatest(xs);
    }
  }

  /** `clip(x, lo, hi)` with the bounds in order is x if it lies between them, and the nearer bound if not. */
  lemma ClipMeans(m: Math, x: real, lo: real, hi: real)
    ensures lo > hi ==> Apply(m, "clip", [x, lo, hi]) == Err(MathDomain)
    ensures lo <= x <= hi ==> Apply(m, "clip", [x, lo, hi]) == Ok(x)
    ensures x <= lo <= hi ==> Apply(m, "clip", [x, lo, hi]) == Ok(lo)
    ensures lo <= hi <= x ==> Apply(m, "clip", [x, lo, hi]) == Ok(hi)
  {
  }

  /** The one-argument functions and `pow`, with the domains they are cut off at. */
  lemma FunctionsMean(m: Math, x: real, y: real)
    ensures Apply(m, "abs", [x]) == Ok(if x < 0.0 then -x else x)
    ensures Apply(m, "sqrt", [x]) == if x >= 0.0 && m.sqrt(x).Some? then Ok(m.sqrt(x).value) else Err(MathDomain)
    ensures Apply(m, "log", [x]) == if x > 0.0 && m.log(x).Some? then Ok(m.log(x).value) else Err(MathDomain)
    ensures Apply(m, "exp", [x]) == if m.exp(x).Some? then Ok(m.exp(x).value) else Err(MathDomain)
    ensures Apply(m, "pow", [x, y]) ==
      if y > 10.0 || y < -10.0 then Err(PowLimit) else if m.pow(x, y).Some? then Ok(m.pow(x, y).value) else Err(MathDomain)
  {
  }

  /** A call evaluates its arguments one level deeper: six levels deep nothing has a value. */
  lemma CallMeans(m: Math, id: string, args: seq<Expr>, ns: Namespace, depth: nat)
    requires id in FUNCTIONS && depth <= 5
    ensures var xs := EvalAll(m, args, ns, depth + 1); var r := Eval(m, Call(Name(id), args, []), ns, depth);
      && (xs.Ok? ==> r == Apply(m, id, xs.value))
      && (xs.Err? ==> r == Err(xs.error))
    ensures depth == 5 && args != [] ==> Eval(m, Call(Name(id), args, []), ns, depth) == Err(DepthExceeded)
    ensures forall e :: Eval(m, e, ns, 6) == Err(DepthExceeded)
  {
    hide Apply;
    if depth == 5 && args != [] {
      assert Eval(m, args[0], ns, 6) == Err(DepthExceeded);
    }
  }

  // ---- what compilation counts and objects to

  lemma {:induction false} CountConcat(a: seq<Expr>, b: seq<Expr>)
    ensures CountAll(a + b) == CountAll(a) + CountAll(b)
    decreases |a|
  {
    hide OwnCount;
    if a == [] {
      assert a + b == b;
    } else {
      assert (a + b)[1..] == a[1..] + b;
      CountConcat(a[1..], b);
    }
  }

  /** What a list of subtrees adds to a tree's count: each its own count, less the root wrapper it has not got. */
  function Parts(es: seq<Expr>): int {
    if es == [] then 0 else CountNodes(es[0]) - 1 + Parts(es[1..])
  }

  lemma {:induction false} PartsCount(es: seq<Expr>)
    ensures CountAll(ListNodes(es)) == Parts(es)
    decreases |es|
  {
    hide Nodes, OwnCount;
    if es != [] {
      PartsCount(es[1..]);
      CountConcat(Nodes(es[0]), ListNodes(es[1..]));
    }
  }

  lemma CountIsOwnAndParts(e: Expr)
    ensures CountNodes(e) == 1 + OwnCount(e) + Parts(Children(e))
  {
    hide Nodes, OwnCount, Children;
    NodesAreOwnAndChildren(e);
    PartsCount(Children(e));
    CountConcat([e], ListNodes(Children(e)));
    assert [e][1..] == [];
    assert CountAll([]) == 0;
  }

  lemma {:induction false} PartsConcat(a: seq<Expr>, b: seq<Expr>)
    ensures Parts(a + b) == Parts(a) + Parts(b)
    decreases |a|
  {
    hide CountNodes;
    if a == [] {
      assert a + b == b;
    } else {
      assert (a + b)[1..] == a[1..] + b;
      PartsConcat(a[1..], b);
    }
  }

  lemma OnePart(e: Expr)
    ensures Parts([e]) == CountNodes(e) - 1
  {
    hide CountNodes;
    assert [e][1..] == [];
  }

  lemma NoParts()
    ensures Parts([]) == 0
  {
  }

  /**
   * The size a formula is held to, as Python counts it: names and lists carry a context, operators
   * are nodes of their own, and the whole has one wrapper.
   */
  lemma SizeIs(e: Expr, a: Expr, b: Expr, c: Expr, es: seq<Expr>, more: seq<Expr>)
    ensures e.Constant? || e.OddConstant? ==> CountNodes(e) == 2
    ensures e.Name? ==> CountNodes(e) == 3
    ensures e.Binary? && e.left == a && e.right == b ==> CountNodes(e) == CountNodes(a) + CountNodes(b) + 1
    ensures e.Unary? && e.operand == a ==> CountNodes(e) == CountNodes(a) + 2
    ensures e.IfExp? && e.test == a && e.body == b && e.orelse == c ==> CountNodes(e) == CountNodes(a) + CountNodes(b) + CountNodes(c) - 1
    ensures e.Compare? && e.first == a && e.comparators == es ==> CountNodes(e) == CountNodes(a) + Parts(es) + 1 + |e.ops|
    ensures e.Boolean? && e.values == es ==> CountNodes(e) == Parts(es) + 3
    ensures e.Group? && e.elements == es ==> CountNodes(e) == Parts(es) + 3
    ensures e.Call? && e.func == a && e.args == es && e.keywords == more ==> CountNodes(e) == CountNodes(a) + Parts(es) + Parts(more) + 1
  {
    hide CountNodes, Parts;
    CountIsOwnAndParts(e);
    OnePart(a);
    OnePart(b);
    OnePart(c);
    PartsConcat([a], [b]);
    PartsConcat([a] + [b], [c]);
    PartsConcat([a], es);
    PartsConcat([a] + es, more);
    assert [a] + [b] == [a, b] && [a] + [b] + [c] == [a, b, c];
    NoParts();
  }

  /** A name is private when it starts with an underscore or has two in a row, and not otherwise. */
  lemma PrivateIs(id: string) returns (before: string, after: string)
    ensures Private("_" + id)
    ensures forall a: string, b: string :: Private(a + "__" + b)
    ensures Private(id) && id[0] != '_' ==> id == before + "__" + after
  {
    forall a: string, b: string
      ensures Private(a + "__" + b)
    {
      var s := a + "__" + b;
      assert s[|a|] == '_' && s[|a| + 1] == '_';
    }
    before, after := "", "";
    if Private(id) && id[0] != '_' {
      var i :| 0 <= i < |id| - 1 && id[i] == '_' && id[i + 1] == '_';
      before, after := id[..i], id[i + 2..];
      assert id == before + [id[i], id[i + 1]] + after;
    }
  }

  /** What one node may be refused for, and nothing else is. */
  lemma ObjectionIs(e: Expr)
    ensures Objection(e).Some? <==>
      || e.Foreign?
      || (e.Binary? && e.bop == OtherBinary)
      || (e.Unary? && e.uop == OtherUnary)
      || (e.Compare? && OtherCompare in e.ops)
      || (e.Name? && Private(e.id))
      || (e.Call? && !(e.func.Name? && e.func.id in {"min", "max", "abs", "sqrt", "log", "exp", "clip", "pow"} && e.keywords == []))
    ensures e.Name? && Private(e.id) ==> Objection(e) == Some(PrivateName(e.id))
    ensures e.Call? && !e.func.Name? ==> Objection(e) == Some(IndirectCall)
    ensures e.Call? && e.func.Name? && e.func.id !in FUNCTIONS ==> Objection(e) == Some(FunctionNotAllowed(e.func.id))
  {
    hide Private;
  }

  /** The free names are the ones that appear, whitelisted functions aside. */
  lemma FreeVarsAre(e: Expr, id: string)
    ensures id in FreeVars(e) <==> Name(id) in Nodes(e) && id !in {"min", "max", "abs", "sqrt", "log", "exp", "clip", "pow"}
  {
    hide Nodes;
    if id in FreeVars(e) {
      var n :| n in Nodes(e) && id in OwnNames(n);
      assert n == Name(id);
    }
    if Name(id) in Nodes(e) && id !in FUNCTIONS {
      assert id in OwnNames(Name(id));
    }
  }
}
