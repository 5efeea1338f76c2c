/** The whitelisted utility-formula language: validation walk and evaluator. */
module Formula {
  import opened Numeric

  const MAX_AST_NODES: nat := 200
  const MAX_CALL_DEPTH: nat := 5
  const FUNCTIONS: set<string> := {"min", "max", "abs", "sqrt", "log", "exp", "clip", "pow"}

  datatype BinaryOp = Add | Sub | Mult | Div | FloorDiv | Modulo | Pow | OtherBinary

  datatype UnaryOperator = UAdd | USub | Not | OtherUnary

  datatype CompareOp = Lt | LtE | Gt | GtE | Eq | NotEq | OtherCompare

  datatype BoolOperator = And | Or

  /** The parsed tree. Operators outside the whitelist appear as the Other cases. */
  datatype Expr =
    | Constant(value: real)
    | OddConstant                                  // a literal that is not a number
    | Name(id: string)
    | Binary(bop: BinaryOp, left: Expr, right: Expr)
    | Unary(uop: UnaryOperator, operand: Expr)
    | Call(func: Expr, args: seq<Expr>, keywords: seq<Expr>)
    | IfExp(test: Expr, body: Expr, orelse: Expr)
    | Compare(first: Expr, ops: seq<CompareOp>, comparators: seq<Expr>)
    | Boolean(op: BoolOperator, values: seq<Expr>)
    | Group(elements: seq<Expr>)                   // subscript, tuple, list: walked but never evaluated
    | Foreign(children: seq<Expr>)                 // every node type off the whitelist

  datatype CompileError =
    | TooComplex | NodeNotAllowed | PrivateName(id: string)
    | IndirectCall | FunctionNotAllowed(id: string) | UnknownNames(ids: set<string>)

  datatype EvalError =
    | DepthExceeded | BadConstant | FunctionAsValue(id: string) | UnknownVariable(id: string)
    | OperatorNotAllowed | DivisionByZero | PowLimit | CalleeNotAllowed | KeywordArguments
    | BadArguments | MathDomain | NotAValue

  // ---- the validation walk

  function Children(e: Expr): seq<Expr> {
    match e
    case Constant(_) => []
    case OddConstant => []
    case Name(_) => []
    case Binary(_, l, r) => [l, r]
    case Unary(_, x) => [x]
    case Call(f, args, kws) => [f] + args + kws
    case IfExp(t, b, o) => [t, b, o]
    case Compare(x, _, cs) => [x] + cs
    case Boolean(_, vs) => vs
    case Group(es) => es
    case Foreign(cs) => cs
  }

  function ListNodes(es: seq<Expr>): seq<Expr>
    decreases es, 0
  {
    if |es| == 0 then [] else Nodes(es[0]) + ListNodes(es[1..])
  }

  /** Every expression node of the tree, the node itself first. */
  function Nodes(e: Expr): (r: seq<Expr>)
    ensures e in r
    decreases e, 1
  {
    [e] + match e
          case Constant(_) => []
          case OddConstant => []
          case Name(_) => []
          case Binary(_, l, r) => Nodes(l) + Nodes(r)
          case Unary(_, x) => Nodes(x)
          case Call(f, args, kws) => Nodes(f) + ListNodes(args) + ListNodes(kws)
          case IfExp(t, b, o) => Nodes(t) + Nodes(b) + Nodes(o)
          case Compare(x, _, cs) => Nodes(x) + ListNodes(cs)
          case Boolean(_, vs) => ListNodes(vs)
          case Group(es) => ListNodes(es)
          case Foreign(cs) => ListNodes(cs)
  }

  lemma {:induction false} ListNodesAppend(a: seq<Expr>, b: seq<Expr>)
    ensures ListNodes(a + b) == ListNodes(a) + ListNodes(b)
  {
    hide Nodes;
    if |a| == 0 {
      assert a + b == b;
    } else {
      ListNodesAppend(a[1..], b);
      assert (a + b)[1..] == a[1..] + b;
    }
  }

  lemma ListNodesOne(e: Expr)
    ensures ListNodes([e]) == Nodes(e)
  {
    hide Nodes;
    assert [e][1..] == [];
    assert ListNodes([]) == [];
  }

  lemma NodesAreOwnAndChildren(e: Expr)
    ensures Nodes(e) == [e] + ListNodes(Children(e))
  {
    match e
    case Constant(_) =>
    case OddConstant =>
    case Name(_) =>
    case Binary(_, l, r) =>
      ListNodesAppend([l], [r]);
      ListNodesOne(l);
      ListNodesOne(r);
      assert [l] + [r] == [l, r];
    case Unary(_, x) => ListNodesOne(x);
    case Call(f, args, kws) =>
      ListNodesAppend([f] + args, kws);
      ListNodesAppend([f], args);
      ListNodesOne(f);
    case IfExp(t, b, o) =>
      ListNodesAppend([t] + [b], [o]);
      ListNodesAppend([t], [b]);
      ListNodesOne(t);
      ListNodesOne(b);
      ListNodesOne(o);
      assert [t] + [b] + [o] == [t, b, o];
    case Compare(x, _, cs) =>
      ListNodesAppend([x], cs);
      ListNodesOne(x);
    case Boolean(_, _) =>
    case Group(_) =>
    case Foreign(_) =>
  }

  /** What one expression node adds to the walk's count: itself, its operators, its contexts. */
  function OwnCount(e: Expr): nat {
    match e
    case Name(_) => 2
    case Binary(_, _, _) => 2
    case Unary(_, _) => 2
    case Compare(_, ops, _) => 1 + |ops|
    case Boolean(_, _) => 2
    case Group(_) => 2
    case _ => 1
  }

  function CountAll(nodes: seq<Expr>): nat {
    if |nodes| == 0 then 0 else OwnCount(nodes[0]) + CountAll(nodes[1..])
  }

  /** `sum(1 for _ in ast.walk(tree))`, the root wrapper included. */
  function CountNodes(e: Expr): nat {
    1 + CountAll(Nodes(e))
  }

  predicate Private(id: string) {
    (|id| > 0 && id[0] == '_') || exists i :: 0 <= i < |id| - 1 && id[i] == '_' && id[i + 1] == '_'
  }

  /** What the walk objects to at a single node. */
  function Objection(e: Expr): Option<CompileError> {
    match e
    case Foreign(_) => Some(NodeNotAllowed)
    case Binary(op, _, _) => if op.OtherBinary? then Some(NodeNotAllowed) else None
    case Unary(op, _) => if op.OtherUnary? then Some(NodeNotAllowed) else None
    case Compare(_, ops, _) => if OtherCompare in ops then Some(NodeNotAllowed) else None
    case Name(id) => if Private(id) then Some(PrivateName(id)) else None
    case Call(f, _, kws) =>
      if !f.Name? then Some(IndirectCall)
      else if f.id !in FUNCTIONS then Some(FunctionNotAllowed(f.id))
      else if |kws| > 0 then Some(NodeNotAllowed)  // the keyword node itself
      else None
    case _ => None
  }

  function OwnNames(e: Expr): set<string> {
    if e.Name? && e.id !in FUNCTIONS then {e.id} else {}
  }

  /** `variables()`: the names in the tree that are not whitelisted functions. */
  function FreeVars(e: Expr): set<string> {
    set n, x | n in Nodes(e) && x in OwnNames(n) :: x
  }

  ghost predicate Clean(e: Expr) {
    forall n :: n in Nodes(e) ==> Objection(n).None?
  }

  lemma ListNodesEmpty()
    ensures ListNodes([]) == []
  {
  }

  /** Taking one node off the work list and queueing its children removes just that node. */
  lemma TakeNode(todo: seq<Expr>)
    requires |todo| > 0
    ensures var next := todo[1..] + Children(todo[0]);
            && |ListNodes(next)| + 1 == |ListNodes(todo)|
            && forall n :: n in ListNodes(todo) <==> n == todo[0] || n in ListNodes(next)
  {
    hide Nodes;
    NodesAreOwnAndChildren(todo[0]);
    ListNodesAppend(todo[1..], Children(todo[0]));
  }

  /** `compile_formula` from the parsed tree on: a breadth-first walk that collects free names. */
  method Compile(e: Expr, allowed: Option<set<string>>) returns (r: Result<set<string>, CompileError>)
    ensures r.Ok? <==> CountNodes(e) <= 200 && Clean(e) && (allowed.Some? ==> FreeVars(e) <= allowed.value)
    ensures r.Ok? ==> r.value == FreeVars(e)
  {
    if CountNodes(e) > MAX_AST_NODES {
      return Err(TooComplex);
    }
    hide Objection, OwnNames, Nodes, CountNodes, ListNodes;
    var todo := [e];
    ListNodesOne(e);
    var free: set<string> := {};
    ghost var seen: seq<Expr> := [];
    while |todo| > 0
      invariant forall n :: n in Nodes(e) <==> n in seen || n in ListNodes(todo)
      invariant forall n :: n in seen ==> Objection(n).None?
      invariant forall x :: x in free <==> exists n :: n in seen && x in OwnNames(n)
      decreases |ListNodes(todo)|
    {
      var node, rest := todo[0], todo[1..];
      TakeNode(todo);
      var objection := Objection(node);
      if objection.Some? {
        return Err(objection.value);
      }
      free := free + OwnNames(node);
      seen := seen + [node];
      todo := rest + Children(node);
    }
    assert todo == [];
    assert ListNodes([]) == [] by { ListNodesEmpty(); }
    assert free == FreeVars(e);
    if allowed.Some? && !(free <= allowed.value) {
      return Err(UnknownNames(free - allowed.value));
    }
    r := Ok(free);
  }

  // ---- evaluation

  /** The transcendental functions of the platform; a domain or range error is None. */
  datatype Math = Math(sqrt: real -> Option<real>, log: real -> Option<real>,
                       exp: real -> Option<real>, pow: (real, real) -> Option<real>)

  type Namespace = map<string, real>

  function Guard(r: Option<real>): Result<real, EvalError> {
    if r.Some? then Ok(r.value) else Err(MathDomain)
  }

  function MinOf(xs: seq<real>): real
    requires |xs| > 0
  {
    if |xs| == 1 then xs[0] else Min(MinOf(xs[..|xs| - 1]), xs[|xs| - 1])
  }

  function MaxOf(xs: seq<real>): real
    requires |xs| > 0
  {
    if |xs| == 1 then xs[0] else Max(MaxOf(xs[..|xs| - 1]), xs[|xs| - 1])
  }

  function SafePow(m: Math, base: real, exponent: real): Result<real, EvalError> {
    if Abs(exponent) > 10.0 then Err(PowLimit) else Guard(m.pow(base, exponent))
  }

  /** A whitelisted function on evaluated arguments; a wrong argument count is BadArguments. */
  function Apply(m: Math, id: string, xs: seq<real>): Result<real, EvalError> {
    if id == "min" then if |xs| < 2 then Err(BadArguments) else Ok(MinOf(xs))
    else if id == "max" then if |xs| < 2 then Err(BadArguments) else Ok(MaxOf(xs))
    else if id == "clip" then
      if |xs| != 3 then Err(BadArguments)
      else if xs[1] > xs[2] then Err(MathDomain)
      else Ok(Max(xs[1], Min(xs[2], xs[0])))
    else if id == "pow" then if |xs| != 2 then Err(BadArguments) else SafePow(m, xs[0], xs[1])
    else if |xs| != 1 then Err(BadArguments)
    else if id == "abs" then Ok(Abs(xs[0]))
    else if id == "sqrt" then if xs[0] < 0.0 then Err(MathDomain) else Guard(m.sqrt(xs[0]))
    else if id == "log" then if xs[0] <= 0.0 then Err(MathDomain) else Guard(m.log(xs[0]))
    else Guard(m.exp(xs[0]))
  }

  function FloorQuotient(a: real, b: real): real
    requires b != 0.0
  {
    (a / b).Floor as real
  }

  function ApplyBinary(m: Math, op: BinaryOp, a: real, b: real): Result<real, EvalError> {
    match op
    case Add => Ok(a + b)
    case Sub => Ok(a - b)
    case Mult => Ok(a * b)
    case Div => if b == 0.0 then Err(DivisionByZero) else Ok(a / b)
    case FloorDiv => if b == 0.0 then Err(DivisionByZero) else Ok(FloorQuotient(a, b))
    case Modulo => if b == 0.0 then Err(DivisionByZero) else Ok(a - b * FloorQuotient(a, b))
    case Pow => SafePow(m, a, b)
    case OtherBinary => Err(OperatorNotAllowed)
  }

  function Truth(b: bool): real {
    if b then 1.0 else 0.0
  }

  function ApplyUnary(op: UnaryOperator, x: real): Result<real, EvalError> {
    match op
    case UAdd => Ok(x)
    case USub => Ok(-x)
    case Not => Ok(Truth(x == 0.0))
    case OtherUnary => Err(OperatorNotAllowed)
  }

  function Holds(op: CompareOp, a: real, b: real): Result<bool, EvalError> {
    match op
    case Lt => Ok(a < b)
    case LtE => Ok(a <= b)
    case Gt => Ok(a > b)
    case GtE => Ok(a >= b)
    case Eq => Ok(a == b)
    case NotEq => Ok(a != b)
    case OtherCompare => Err(OperatorNotAllowed)
  }

  /** Arguments left to right, stopping at the first error. */
  function EvalAll(m: Math, es: seq<Expr>, ns: Namespace, depth: nat): Result<seq<real>, EvalError>
    decreases es, 0
  {
    if |es| == 0 then Ok([])
    else
      var a := Eval(m, es[0], ns, depth);
      if a.Err? then Err(a.error)
      else
        var rest := EvalAll(m, es[1..], ns, depth);
        if rest.Err? then rest else Ok([a.value] + rest.value)
  }

  /** `_evaluate`. */
  function Eval(m: Math, e: Expr, ns: Namespace, depth: nat): Result<real, EvalError>
    decreases e, 1
  {
    if depth > MAX_CALL_DEPTH then Err(DepthExceeded)
    else
      match e
      case Constant(v) => Ok(v)
      case OddConstant => Err(BadConstant)
      case Name(id) =>
        if id in FUNCTIONS then Err(FunctionAsValue(id))
        else if id !in ns then Err(UnknownVariable(id))
        else Ok(ns[id])
      case Binary(op, l, r) =>
        var a := Eval(m, l, ns, depth);
        if a.Err? then a
        else
          var b := Eval(m, r, ns, depth);
          if b.Err? then b else ApplyBinary(m, op, a.value, b.value)
      case Unary(op, x) =>
        var a := Eval(m, x, ns, depth);
        if a.Err? then a else ApplyUnary(op, a.value)
      case Call(f, args, kws) =>
        if !f.Name? || f.id !in FUNCTIONS then Err(CalleeNotAllowed)
        else if |kws| > 0 then Err(KeywordArguments)
        else
          var xs := EvalAll(m, args, ns, depth + 1);
          if xs.Err? then Err(xs.error) else Apply(m, f.id, xs.value)
      case IfExp(t, b, o) =>
        var c := Eval(m, t, ns, depth);
        if c.Err? then c
        else if c.value != 0.0 then Eval(m, b, ns, depth)
        else Eval(m, o, ns, depth)
      case Compare(x, ops, cs) =>
        var a := Eval(m, x, ns, depth);
        if a.Err? then a else EvalChain(m, a.value, ops, cs, ns, depth)
      case Boolean(op, vs) =>
        var xs := EvalAll(m, vs, ns, depth);
        if xs.Err? then Err(xs.error)
        else if op.And? then Ok(Truth(0.0 !in xs.value))
        else Ok(Truth(exists i :: 0 <= i < |xs.value| && xs.value[i] != 0.0))
      case Group(_) => Err(NotAValue)
      case Foreign(_) => Err(NotAValue)
  }

  /** A chained comparison: the first false link ends it, unevaluated links included. */
  function EvalChain(m: Math, left: real, ops: seq<CompareOp>, cs: seq<Expr>, ns: Namespace, depth: nat): Result<real, EvalError>
    decreases cs, 0
  {
    if |ops| == 0 || |cs| == 0 then if |ops| == |cs| then Ok(1.0) else Err(BadArguments)
    else
      var b := Eval(m, cs[0], ns, depth);
      if b.Err? then b
      else
        var ok := Holds(ops[0], left, b.value);
        if ok.Err? then Err(ok.error)
        else if !ok.value then Ok(0.0)
        else EvalChain(m, b.value, ops[1..], cs[1..], ns, depth)
  }

  // ---- evaluation sees only the free variables

  ghost predicate AgreeOn(ids: set<string>, ns: Namespace, ns': Namespace) {
    forall x :: x in ids ==> (x in ns <==> x in ns') && (x in ns ==> ns[x] == ns'[x])
  }

  lemma AgreeOnPart(ids: set<string>, part: set<string>, ns: Namespace, ns': Namespace)
    requires AgreeOn(ids, ns, ns') && part <= ids
    ensures AgreeOn(part, ns, ns')
  {
  }

  lemma {:induction false} MemberNodes(es: seq<Expr>, c: Expr)
    requires c in es
    ensures forall n :: n in Nodes(c) ==> n in ListNodes(es)
    decreases |es|
  {
    hide Nodes;
    if c != es[0] {
      assert c in es[1..];
      MemberNodes(es[1..], c);
    }
  }

  lemma ChildFree(e: Expr, c: Expr)
    requires c in Children(e)
    ensures FreeVars(c) <= FreeVars(e)
  {
    hide Nodes;
    NodesAreOwnAndChildren(e);
    MemberNodes(Children(e), c);
    assert forall n :: n in Nodes(c) ==> n in Nodes(e);
  }

  lemma NameIsFree(id: string)
    ensures id in FUNCTIONS || id in FreeVars(Name(id))
  {
    assert Name(id) in Nodes(Name(id));
    assert id in FUNCTIONS || id in OwnNames(Name(id));
  }

  lemma NameAgrees(id: string, ns: Namespace, ns': Namespace)
    requires AgreeOn(FreeVars(Name(id)), ns, ns')
    ensures id in FUNCTIONS || ((id in ns <==> id in ns') && (id in ns ==> ns[id] == ns'[id]))
  {
    NameIsFree(id);
  }

  lemma {:induction false} AllDependOnFreeVars(m: Math, es: seq<Expr>, ns: Namespace, ns': Namespace, depth: nat)
    requires forall c :: c in es ==> AgreeOn(FreeVars(c), ns, ns')
    ensures EvalAll(m, es, ns, depth) == EvalAll(m, es, ns', depth)
    decreases es, 0
  {
    hide AgreeOn, Eval, FreeVars;
    if |es| > 0 {
      EvalDependsOnFreeVars(m, es[0], ns, ns', depth);
      AllDependOnFreeVars(m, es[1..], ns, ns', depth);
    }
  }

  /** Namespaces that agree on a formula's free variables give it the same value or the same error. */
  lemma {:induction false} EvalDependsOnFreeVars(m: Math, e: Expr, ns: Namespace, ns': Namespace, depth: nat)
    requires AgreeOn(FreeVars(e), ns, ns')
    ensures Eval(m, e, ns, depth) == Eval(m, e, ns', depth)
    decreases e, 1
  {
    hide AgreeOn, Apply, ApplyBinary, ApplyUnary;
    forall c | c in Children(e)
      ensures AgreeOn(FreeVars(c), ns, ns')
    {
      ChildFree(e, c);
      AgreeOnPart(FreeVars(e), FreeVars(c), ns, ns');
    }
    match e
    case Constant(_) =>
    case OddConstant =>
    case Name(id) => NameAgrees(id, ns, ns');
    case Binary(_, l, r) =>
      assert l in Children(e) && r in Children(e);
      EvalDependsOnFreeVars(m, l, ns, ns', depth);
      EvalDependsOnFreeVars(m, r, ns, ns', depth);
    case Unary(_, x) =>
      assert x in Children(e);
      EvalDependsOnFreeVars(m, x, ns, ns', depth);
    case Call(_, args, _) =>
      AllDependOnFreeVars(m, args, ns, ns', depth + 1);
    case IfExp(t, b, o) =>
      assert t in Children(e) && b in Children(e) && o in Children(e);
      EvalDependsOnFreeVars(m, t, ns, ns', depth);
      EvalDependsOnFreeVars(m, b, ns, ns', depth);
      EvalDependsOnFreeVars(m, o, ns, ns', depth);
    case Compare(x, ops, cs) =>
      assert x in Children(e);
      EvalDependsOnFreeVars(m, x, ns, ns', depth);
      var a := Eval(m, x, ns, depth);
      if a.Ok? {
        ChainDependsOnFreeVars(m, a.value, ops, cs, ns, ns', depth);
      }
    case Boolean(_, vs) =>
      AllDependOnFreeVars(m, vs, ns, ns', depth);
    case Group(_) =>
    case Foreign(_) =>
  }

  lemma {:induction false} ChainDependsOnFreeVars(m: Math, left: real, ops: seq<CompareOp>, cs: seq<Expr>, ns: Namespace, ns': Namespace, depth: nat)
    requires forall c :: c in cs ==> AgreeOn(FreeVars(c), ns, ns')
    ensures EvalChain(m, left, ops, cs, ns, depth) == EvalChain(m, left, ops, cs, ns', depth)
    decreases cs, 0
  {
    hide AgreeOn, Eval, FreeVars;
    if |ops| > 0 && |cs| > 0 {
      EvalDependsOnFreeVars(m, cs[0], ns, ns', depth);
      var b := Eval(m, cs[0], ns, depth);
      if b.Ok? {
        ChainDependsOnFreeVars(m, b.value, ops[1..], cs[1..], ns, ns', depth);
      }
    }
  }

  ghost predicate NamesMissing(r: EvalError, e: Expr, ns: Namespace) {
    r.UnknownVariable? ==> r.id in FreeVars(e) && r.id !in ns
  }

  lemma ApplyNeverUnknown(m: Math, id: string, xs: seq<real>)
    ensures Apply(m, id, xs).Err? ==> !Apply(m, id, xs).error.UnknownVariable?
  {
  }

  lemma {:induction false} AllMissing(m: Math, parent: Expr, es: seq<Expr>, ns: Namespace, depth: nat)
    requires forall c :: c in es ==> FreeVars(c) <= FreeVars(parent)
    ensures var r := EvalAll(m, es, ns, depth); r.Err? ==> NamesMissing(r.error, parent, ns)
    decreases es, 0
  {
    hide Eval, FreeVars;
    if |es| > 0 {
      UnknownIsMissing(m, es[0], ns, depth);
      AllMissing(m, parent, es[1..], ns, depth);
    }
  }

  /** The unknown-variable error always names a free variable the namespace lacks. */
  lemma {:induction false} UnknownIsMissing(m: Math, e: Expr, ns: Namespace, depth: nat)
    ensures var r := Eval(m, e, ns, depth); r.Err? ==> NamesMissing(r.error, e, ns)
    decreases e, 1
  {
    hide FreeVars, Apply;
    forall c | c in Children(e)
      ensures FreeVars(c) <= FreeVars(e)
    {
      ChildFree(e, c);
    }
    match e
    case Constant(_) =>
    case OddConstant =>
    case Name(id) => NameIsFree(id);
    case Binary(op, l, r) =>
      assert l in Children(e) && r in Children(e);
      UnknownIsMissing(m, l, ns, depth);
      UnknownIsMissing(m, r, ns, depth);
    case Unary(_, x) =>
      assert x in Children(e);
      UnknownIsMissing(m, x, ns, depth);
    case Call(f, args, _) =>
      AllMissing(m, e, args, ns, depth + 1);
      var xs := EvalAll(m, args, ns, depth + 1);
      if f.Name? && xs.Ok? {
        ApplyNeverUnknown(m, f.id, xs.value);
      }
    case IfExp(t, b, o) =>
      assert t in Children(e) && b in Children(e) && o in Children(e);
      UnknownIsMissing(m, t, ns, depth);
      UnknownIsMissing(m, b, ns, depth);
      UnknownIsMissing(m, o, ns, depth);
    case Compare(x, ops, cs) =>
      assert x in Children(e);
      UnknownIsMissing(m, x, ns, depth);
      var a := Eval(m, x, ns, depth);
      if a.Ok? {
        ChainMissing(m, e, a.value, ops, cs, ns, depth);
      }
    case Boolean(_, vs) =>
      AllMissing(m, e, vs, ns, depth);
    case Group(_) =>
    case Foreign(_) =>
  }

  lemma {:induction false} ChainMissing(m: Math, parent: Expr, left: real, ops: seq<CompareOp>, cs: seq<Expr>, ns: Namespace, depth: nat)
    requires forall c :: c in cs ==> FreeVars(c) <= FreeVars(parent)
    ensures var r := EvalChain(m, left, ops, cs, ns, depth); r.Err? ==> NamesMissing(r.error, parent, ns)
    decreases cs, 0
  {
    hide Eval, FreeVars;
    if |ops| > 0 && |cs| > 0 {
      UnknownIsMissing(m, cs[0], ns, depth);
      var b := Eval(m, cs[0], ns, depth);
      if b.Ok? {
        ChainMissing(m, parent, b.value, ops[1..], cs[1..], ns, depth);
      }
    }
  }

  /** A namespace that defines every free variable never meets the unknown-variable error. */
  lemma UnknownVariableUnreachable(m: Math, e: Expr, ns: Namespace, depth: nat, id: string)
    requires FreeVars(e) <= ns.Keys
    ensures Eval(m, e, ns, depth) != Err(UnknownVariable(id))
  {
    UnknownIsMissing(m, e, ns, depth);
  }

  // ---- what a successful compilation buys

  /** Not one of the errors the validation walk exists to prevent. */
  predicate Whitelisted(r: EvalError) {
    !r.OperatorNotAllowed? && !r.CalleeNotAllowed? && !r.KeywordArguments?
  }

  lemma CleanChildren(e: Expr)
    requires Clean(e)
    ensures Objection(e).None? && forall c :: c in Children(e) ==> Clean(c)
  {
    hide Nodes, Objection;
    forall c | c in Children(e)
      ensures Clean(c)
    {
      NodesAreOwnAndChildren(e);
      MemberNodes(Children(e), c);
    }
  }

  lemma ApplyWhitelisted(m: Math, id: string, xs: seq<real>)
    ensures Apply(m, id, xs).Err? ==> Whitelisted(Apply(m, id, xs).error)
  {
  }

  /** What an unobjectionable node can report itself. */
  lemma NodeWhitelisted(m: Math, e: Expr)
    requires Objection(e).None?
    ensures e.Binary? ==> forall a, b :: ApplyBinary(m, e.bop, a, b).Err? ==> Whitelisted(ApplyBinary(m, e.bop, a, b).error)
    ensures e.Unary? ==> forall a :: ApplyUnary(e.uop, a).Err? ==> Whitelisted(ApplyUnary(e.uop, a).error)
    ensures e.Call? ==> e.func.Name? && e.func.id in FUNCTIONS && |e.keywords| == 0
    ensures e.Compare? ==> OtherCompare !in e.ops
    ensures forall id :: Whitelisted(FunctionAsValue(id)) && Whitelisted(UnknownVariable(id))
    ensures Whitelisted(DepthExceeded) && Whitelisted(BadConstant) && Whitelisted(NotAValue)
  {
  }

  lemma {:induction false} AllWhitelisted(m: Math, es: seq<Expr>, ns: Namespace, depth: nat)
    requires forall c :: c in es ==> Clean(c)
    ensures var r := EvalAll(m, es, ns, depth); r.Err? ==> Whitelisted(r.error)
    decreases es, 0
  {
    hide Eval, Clean;
    if |es| > 0 {
      CompiledStaysWhitelisted(m, es[0], ns, depth);
      AllWhitelisted(m, es[1..], ns, depth);
    }
  }

  /** A tree the walk does not object to never meets a disallowed operator, a callee off the list or keyword arguments. */
  lemma {:induction false} CompiledStaysWhitelisted(m: Math, e: Expr, ns: Namespace, depth: nat)
    requires Clean(e)
    ensures var r := Eval(m, e, ns, depth); r.Err? ==> Whitelisted(r.error)
    decreases e, 1
  {
    hide Clean, Apply, ApplyBinary, ApplyUnary, Objection, Whitelisted, FUNCTIONS;
    CleanChildren(e);
    NodeWhitelisted(m, e);
    match e
    case Constant(_) =>
    case OddConstant =>
    case Name(_) =>
    case Binary(_, l, r) =>
      assert l in Children(e) && r in Children(e);
      CompiledStaysWhitelisted(m, l, ns, depth);
      CompiledStaysWhitelisted(m, r, ns, depth);
    case Unary(_, x) =>
      assert x in Children(e);
      CompiledStaysWhitelisted(m, x, ns, depth);
    case Call(f, args, _) =>
      AllWhitelisted(m, args, ns, depth + 1);
      var xs := EvalAll(m, args, ns, depth + 1);
      if f.Name? && xs.Ok? {
        ApplyWhitelisted(m, f.id, xs.value);
      }
    case IfExp(t, b, o) =>
      assert t in Children(e) && b in Children(e) && o in Children(e);
      CompiledStaysWhitelisted(m, t, ns, depth);
      CompiledStaysWhitelisted(m, b, ns, depth);
      CompiledStaysWhitelisted(m, o, ns, depth);
    case Compare(x, ops, cs) =>
      assert x in Children(e);
      CompiledStaysWhitelisted(m, x, ns, depth);
      var a := Eval(m, x, ns, depth);
      if a.Ok? {
        ChainWhitelisted(m, a.value, ops, cs, ns, depth);
      }
    case Boolean(_, vs) => AllWhitelisted(m, vs, ns, depth);
    case Group(_) =>
    case Foreign(_) =>
  }

  lemma {:induction false} ChainWhitelisted(m: Math, left: real, ops: seq<CompareOp>, cs: seq<Expr>, ns: Namespace, depth: nat)
    requires OtherCompare !in ops && forall c :: c in cs ==> Clean(c)
    ensures var r := EvalChain(m, left, ops, cs, ns, depth); r.Err? ==> Whitelisted(r.error)
    decreases cs, 0
  {
    hide Eval, Clean;
    if |ops| > 0 && |cs| > 0 {
      CompiledStaysWhitelisted(m, cs[0], ns, depth);
      var b := Eval(m, cs[0], ns, depth);
      if b.Ok? {
        ChainWhitelisted(m, b.value, ops[1..], cs[1..], ns, depth);
      }
    }
  }
}
