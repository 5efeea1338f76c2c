/** Scenarios, ledgers and the oracle gap, on the utility formulas the SDK ships. */
module Sdk {
  import opened Numeric
  import opened Grids
  import opened PiecewiseLinear
  import opened Oracle
  import F = Formula

  datatype Role = Buyer | Supplier | Packager | OtherRole

  datatype Participant = Participant(role: Role, formula: F.Expr, parameters: map<string, real>, outside: real)

  /** A single-period scenario with a declared capacity. */
  datatype Scenario = Scenario(demandMean: real, demandStd: real, unitValue: real,
                               capacity: real, riskScore: real, participants: seq<Participant>)

  /** Scenario constants, overridden by the participant's parameters, then the quantity. */
  function Namespace(p: Participant, s: Scenario, q: real): F.Namespace {
    var base := map["demand" := s.demandMean, "demand_mean" := s.demandMean, "demand_std" := s.demandStd,
                    "unit_value" := s.unitValue, "risk_score" := s.riskScore, "capacity" := s.capacity,
                    "n_periods" := 1.0];
    (base + p.parameters)["q" := q]
  }

  /** What a name means to a participant: the quantity, else its own parameter, else the scenario's constant. */
  lemma NamespaceIs(p: Participant, s: Scenario, q: real, id: string)
    ensures var ns := Namespace(p, s, q);
      && ns["q"] == q
      && (id != "q" && id in p.parameters ==> id in ns && ns[id] == p.parameters[id])
      && (id != "q" && id !in p.parameters ==>
           (id in ns <==> id in {"demand", "demand_mean", "demand_std", "unit_value", "risk_score", "capacity", "n_periods"}))
      && ("demand" !in p.parameters ==> ns["demand"] == s.demandMean)
      && ("demand_mean" !in p.parameters ==> ns["demand_mean"] == s.demandMean)
      && ("demand_std" !in p.parameters ==> ns["demand_std"] == s.demandStd)
      && ("unit_value" !in p.parameters ==> ns["unit_value"] == s.unitValue)
      && ("risk_score" !in p.parameters ==> ns["risk_score"] == s.riskScore)
      && ("capacity" !in p.parameters ==> ns["capacity"] == s.capacity)
      && ("n_periods" !in p.parameters ==> ns["n_periods"] == 1.0)
  {
  }

  /** `evaluate_participant_utility` for one period. */
  function Evaluate(m: F.Math, p: Participant, s: Scenario, q: real): Result<real, F.EvalError> {
    F.Eval(m, p.formula, Namespace(p, s, q), 0)
  }

  // ---- the shipped formulas

  function V(id: string): F.Expr { F.Name(id) }

  function Times(a: F.Expr, b: F.Expr): F.Expr { F.Binary(F.Mult, a, b) }

  function Minus(a: F.Expr, b: F.Expr): F.Expr { F.Binary(F.Sub, a, b) }

  /** max(a - b, 0) */
  function Excess(a: string, b: string): F.Expr {
    F.Call(V("max"), [Minus(V(a), V(b)), F.Constant(0.0)], [])
  }

  function BuyerFormula(): F.Expr {
    Minus(Minus(Minus(
      Times(V("service_level_value"), F.Call(V("min"), [V("q"), V("demand")], [])),
      Times(V("unit_price"), V("q"))),
      Times(V("shortage_penalty"), Excess("demand", "q"))),
      Times(V("inventory_penalty"), Excess("q", "demand")))
  }

  function SupplierFormula(): F.Expr {
    Minus(Minus(Minus(Minus(
      Times(V("revenue_per_unit"), V("q")),
      Times(V("production_cost"), V("q"))),
      Times(V("holding_cost"), Excess("q", "demand"))),
      Times(V("stockout_penalty"), Excess("demand", "q"))),
      Times(Times(V("risk_premium"), V("risk_score")), V("q")))
  }

  function PackagerFormula(): F.Expr {
    Minus(Minus(Minus(
      Times(V("packaging_fee"), V("q")),
      Times(V("packaging_cost"), V("q"))),
      Times(V("overtime_penalty"), Excess("q", "soft_capacity"))),
      Times(Times(V("risk_premium"), V("risk_score")), V("q")))
  }

  // one evaluation step per node shape

  lemma EvalName(m: F.Math, id: string, ns: F.Namespace, depth: nat)
    requires depth <= F.MAX_CALL_DEPTH && id !in F.FUNCTIONS && id in ns
    ensures F.Eval(m, V(id), ns, depth) == Ok(ns[id])
  {
  }

  lemma EvalTimes(m: F.Math, a: F.Expr, b: F.Expr, ns: F.Namespace, depth: nat, x: real, y: real, v: real)
    requires depth <= F.MAX_CALL_DEPTH && F.Eval(m, a, ns, depth) == Ok(x) && F.Eval(m, b, ns, depth) == Ok(y)
    requires v == x * y
    ensures F.Eval(m, Times(a, b), ns, depth) == Ok(v)
  {
  }

  lemma EvalMinus(m: F.Math, a: F.Expr, b: F.Expr, ns: F.Namespace, depth: nat, x: real, y: real, v: real)
    requires depth <= F.MAX_CALL_DEPTH && F.Eval(m, a, ns, depth) == Ok(x) && F.Eval(m, b, ns, depth) == Ok(y)
    requires v == x - y
    ensures F.Eval(m, Minus(a, b), ns, depth) == Ok(v)
  {
  }

  lemma EvalOne(m: F.Math, b: F.Expr, ns: F.Namespace, depth: nat, y: real)
    requires F.Eval(m, b, ns, depth) == Ok(y)
    ensures F.EvalAll(m, [b], ns, depth) == Ok([y])
  {
    hide F.Eval;
    var es := [b];
    assert es[1..] == [];
    assert F.EvalAll(m, es[1..], ns, depth) == Ok([]);
    assert [y] + [] == [y];
  }

  lemma EvalPair(m: F.Math, a: F.Expr, b: F.Expr, ns: F.Namespace, depth: nat, x: real, y: real)
    requires F.Eval(m, a, ns, depth) == Ok(x) && F.Eval(m, b, ns, depth) == Ok(y)
    ensures F.EvalAll(m, [a, b], ns, depth) == Ok([x, y])
  {
    hide F.Eval;
    EvalOne(m, b, ns, depth, y);
    var es := [a, b];
    assert es[1..] == [b];
    assert [x] + [y] == [x, y];
  }

  lemma MaxOfTwo(x: real, y: real)
    ensures F.MaxOf([x, y]) == Max(x, y) && F.MinOf([x, y]) == Min(x, y)
  {
    assert [x, y][..1] == [x];
  }

  lemma EvalExcess(m: F.Math, a: string, b: string, ns: F.Namespace)
    requires a !in F.FUNCTIONS && b !in F.FUNCTIONS && a in ns && b in ns
    ensures F.Eval(m, Excess(a, b), ns, 0) == Ok(Max(ns[a] - ns[b], 0.0))
  {
    EvalName(m, a, ns, 1);
    EvalName(m, b, ns, 1);
    EvalMinus(m, V(a), V(b), ns, 1, ns[a], ns[b], ns[a] - ns[b]);
    EvalPair(m, Minus(V(a), V(b)), F.Constant(0.0), ns, 1, ns[a] - ns[b], 0.0);
    MaxOfTwo(ns[a] - ns[b], 0.0);
    assert F.Apply(m, "max", [ns[a] - ns[b], 0.0]) == Ok(Max(ns[a] - ns[b], 0.0));
  }

  lemma EvalMinQDemand(m: F.Math, ns: F.Namespace)
    requires "q" in ns && "demand" in ns
    ensures F.Eval(m, F.Call(V("min"), [V("q"), V("demand")], []), ns, 0) == Ok(Min(ns["q"], ns["demand"]))
  {
    EvalName(m, "q", ns, 1);
    EvalName(m, "demand", ns, 1);
    EvalPair(m, V("q"), V("demand"), ns, 1, ns["q"], ns["demand"]);
    MaxOfTwo(ns["q"], ns["demand"]);
    assert F.Apply(m, "min", [ns["q"], ns["demand"]]) == Ok(Min(ns["q"], ns["demand"]));
  }

  lemma EvalRate(m: F.Math, rate: string, ns: F.Namespace, v: real)
    requires rate !in F.FUNCTIONS && rate in ns && "q" in ns && v == ns[rate] * ns["q"]
    ensures F.Eval(m, Times(V(rate), V("q")), ns, 0) == Ok(v)
  {
    EvalName(m, rate, ns, 0);
    EvalName(m, "q", ns, 0);
    EvalTimes(m, V(rate), V("q"), ns, 0, ns[rate], ns["q"], v);
  }

  lemma EvalPenalty(m: F.Math, rate: string, a: string, b: string, ns: F.Namespace, v: real)
    requires {rate, a, b} !! F.FUNCTIONS && rate in ns && a in ns && b in ns
    requires v == ns[rate] * Max(ns[a] - ns[b], 0.0)
    ensures F.Eval(m, Times(V(rate), Excess(a, b)), ns, 0) == Ok(v)
  {
    hide F.Eval;
    assert rate in {rate, a, b} && a in {rate, a, b} && b in {rate, a, b};
    EvalName(m, rate, ns, 0);
    EvalExcess(m, a, b, ns);
    EvalTimes(m, V(rate), Excess(a, b), ns, 0, ns[rate], Max(ns[a] - ns[b], 0.0), v);
  }

  lemma EvalRisk(m: F.Math, ns: F.Namespace, risk: real, v: real)
    requires {"risk_premium", "risk_score", "q"} <= ns.Keys
    requires risk == ns["risk_premium"] * ns["risk_score"] && v == risk * ns["q"]
    ensures F.Eval(m, Times(Times(V("risk_premium"), V("risk_score")), V("q")), ns, 0) == Ok(v)
  {
    hide F.Eval;
    EvalName(m, "risk_premium", ns, 0);
    EvalName(m, "risk_score", ns, 0);
    EvalName(m, "q", ns, 0);
    EvalTimes(m, V("risk_premium"), V("risk_score"), ns, 0, ns["risk_premium"], ns["risk_score"], risk);
    EvalTimes(m, Times(V("risk_premium"), V("risk_score")), V("q"), ns, 0, risk, ns["q"], v);
  }

  const BUYER_NAMES: set<string> := {"service_level_value", "unit_price", "shortage_penalty", "inventory_penalty"}
  const SUPPLIER_NAMES: set<string> := {"revenue_per_unit", "production_cost", "holding_cost", "stockout_penalty", "risk_premium"}
  const PACKAGER_NAMES: set<string> := {"packaging_fee", "packaging_cost", "overtime_penalty", "soft_capacity", "risk_premium"}

  function BuyerShape(level: real, price: real, short: real, inv: real, d: real): Pwl {
    Pwl(-short * d, level - price + short, [Hinge(-level - short - inv, d)])
  }

  function SupplierShape(rev: real, cost: real, hold: real, out: real, risk: real, d: real): Pwl {
    Pwl(-out * d, rev - cost + out - risk, [Hinge(-hold - out, d)])
  }

  function BuyerPwl(ns: F.Namespace): Pwl
    requires BUYER_NAMES + {"demand"} <= ns.Keys
  {
    var level, price, short, inv, d := ns["service_level_value"], ns["unit_price"], ns["shortage_penalty"], ns["inventory_penalty"], ns["demand"];
    BuyerShape(level, price, short, inv, d)
  }

  function SupplierPwl(ns: F.Namespace): Pwl
    requires SUPPLIER_NAMES + {"demand", "risk_score"} <= ns.Keys
  {
    var rev, cost, hold, out, risk, d := ns["revenue_per_unit"], ns["production_cost"], ns["holding_cost"], ns["stockout_penalty"], ns["risk_premium"] * ns["risk_score"], ns["demand"];
    SupplierShape(rev, cost, hold, out, risk, d)
  }

  function PackagerPwl(ns: F.Namespace): Pwl
    requires PACKAGER_NAMES + {"risk_score"} <= ns.Keys
  {
    var fee, cost, over, soft, risk := ns["packaging_fee"], ns["packaging_cost"], ns["overtime_penalty"], ns["soft_capacity"], ns["risk_premium"] * ns["risk_score"];
    Pwl(0.0, fee - cost - risk, [Hinge(-over, soft)])
  }

  // the three formulas as arithmetic

  function BuyerWorth(level: real, price: real, short: real, inv: real, d: real, q: real): real {
    level * Min(q, d) - price * q - short * Max(d - q, 0.0) - inv * Max(q - d, 0.0)
  }

  function SupplierWorth(rev: real, cost: real, hold: real, out: real, risk: real, d: real, q: real): real {
    rev * q - cost * q - hold * Max(q - d, 0.0) - out * Max(d - q, 0.0) - risk * q
  }

  function PackagerWorth(fee: real, cost: real, over: real, soft: real, risk: real, q: real): real {
    fee * q - cost * q - over * Max(q - soft, 0.0) - risk * q
  }

  lemma OneHingeAt(base: real, slope: real, w: real, t: real, q: real, rise: real, bend: real)
    requires rise == slope * q && bend == w * Max(q - t, 0.0)
    ensures Pwl(base, slope, [Hinge(w, t)]).At(q) == base + rise + bend
  {
    var p := Pwl(base, slope, [Hinge(w, t)]);
    assert p.HingesAt(q, 1) == p.HingesAt(q, 0) + Hinge(w, t).At(q);
  }

  lemma BuyerAlgebra(level: real, price: real, short: real, inv: real, q: real, d: real, x0: real, x1: real, x2: real, x3: real)
    requires x0 == level * Min(q, d) && x1 == price * q && x2 == short * Max(d - q, 0.0) && x3 == inv * Max(q - d, 0.0)
    ensures BuyerShape(level, price, short, inv, d).At(q) == x0 - x1 - x2 - x3
    ensures BuyerWorth(level, price, short, inv, d, q) == x0 - x1 - x2 - x3
  {
    hide Pwl.At;
    var rise, bend := (level - price + short) * q, (-level - short - inv) * Max(q - d, 0.0);
    var base := -short * d;
    OneHingeAt(base, level - price + short, -level - short - inv, d, q, rise, bend);
    var lq, ld, sq, sd := level * q, level * d, short * q, short * d;
    assert base == -sd;
    assert rise == lq - x1 + sq;
    if q <= d {
      assert x0 == lq && x2 == sd - sq && x3 == 0.0 && bend == 0.0;
    } else {
      assert x0 == ld && x2 == 0.0;
      assert bend == -(lq - ld) - (sq - sd) - x3 by {
        var e := q - d;
        assert bend == -(level * e) - short * e - inv * e;
        assert level * e == lq - ld;
        assert short * e == sq - sd;
      }
      assert base + rise + bend == x0 - x1 - x2 - x3;
    }
    assert BuyerShape(level, price, short, inv, d) == Pwl(base, level - price + short, [Hinge(-level - short - inv, d)]);
  }

  /** The buyer's formula, evaluated, is its piecewise-linear form. */
  lemma BuyerValue(m: F.Math, ns: F.Namespace)
    requires BUYER_NAMES + {"demand", "q"} <= ns.Keys
    ensures F.Eval(m, BuyerFormula(), ns, 0) == Ok(BuyerPwl(ns).At(ns["q"]))
    ensures F.Eval(m, BuyerFormula(), ns, 0) == Ok(BuyerWorth(ns["service_level_value"], ns["unit_price"],
                                                              ns["shortage_penalty"], ns["inventory_penalty"], ns["demand"], ns["q"]))
  {
    hide F.Eval, Pwl.At, BuyerShape, BuyerWorth;
    var level, price, short, inv := ns["service_level_value"], ns["unit_price"], ns["shortage_penalty"], ns["inventory_penalty"];
    var q, d := ns["q"], ns["demand"];
    var x0, x1, x2, x3 := level * Min(q, d), price * q, short * Max(d - q, 0.0), inv * Max(q - d, 0.0);
    var min := F.Call(V("min"), [V("q"), V("demand")], []);
    var t0, t1 := Times(V("service_level_value"), min), Times(V("unit_price"), V("q"));
    var t2, t3 := Times(V("shortage_penalty"), Excess("demand", "q")), Times(V("inventory_penalty"), Excess("q", "demand"));
    EvalName(m, "service_level_value", ns, 0);
    EvalMinQDemand(m, ns);
    EvalTimes(m, V("service_level_value"), min, ns, 0, level, Min(q, d), x0);
    EvalRate(m, "unit_price", ns, x1);
    EvalPenalty(m, "shortage_penalty", "demand", "q", ns, x2);
    EvalPenalty(m, "inventory_penalty", "q", "demand", ns, x3);
    EvalMinus(m, t0, t1, ns, 0, x0, x1, x0 - x1);
    EvalMinus(m, Minus(t0, t1), t2, ns, 0, x0 - x1, x2, x0 - x1 - x2);
    EvalMinus(m, Minus(Minus(t0, t1), t2), t3, ns, 0, x0 - x1 - x2, x3, x0 - x1 - x2 - x3);
    BuyerAlgebra(level, price, short, inv, q, d, x0, x1, x2, x3);
  }

  lemma SupplierAlgebra(rev: real, cost: real, hold: real, out: real, risk: real, q: real, d: real,
                        x0: real, x1: real, x2: real, x3: real, x4: real)
    requires x0 == rev * q && x1 == cost * q && x2 == hold * Max(q - d, 0.0) && x3 == out * Max(d - q, 0.0) && x4 == risk * q
    ensures SupplierShape(rev, cost, hold, out, risk, d).At(q) == x0 - x1 - x2 - x3 - x4
    ensures SupplierWorth(rev, cost, hold, out, risk, d, q) == x0 - x1 - x2 - x3 - x4
  {
    hide Pwl.At;
    var rise, bend := (rev - cost + out - risk) * q, (-hold - out) * Max(q - d, 0.0);
    var base := -out * d;
    OneHingeAt(base, rev - cost + out - risk, -hold - out, d, q, rise, bend);
    var oq, od := out * q, out * d;
    assert base == -od;
    assert rise == x0 - x1 + oq - x4;
    if q <= d {
      assert x2 == 0.0 && x3 == od - oq && bend == 0.0;
    } else {
      assert x3 == 0.0 && bend == -x2 - (oq - od);
    }
  }

  /** The supplier's formula likewise. */
  lemma SupplierValue(m: F.Math, ns: F.Namespace)
    requires SUPPLIER_NAMES + {"demand", "risk_score", "q"} <= ns.Keys
    ensures F.Eval(m, SupplierFormula(), ns, 0) == Ok(SupplierPwl(ns).At(ns["q"]))
    ensures F.Eval(m, SupplierFormula(), ns, 0) == Ok(SupplierWorth(ns["revenue_per_unit"], ns["production_cost"], ns["holding_cost"],
                                                                    ns["stockout_penalty"], ns["risk_premium"] * ns["risk_score"], ns["demand"], ns["q"]))
  {
    hide F.Eval, Pwl.At, SupplierShape, SupplierWorth;
    var rev, cost, hold, out, risk := ns["revenue_per_unit"], ns["production_cost"], ns["holding_cost"], ns["stockout_penalty"], ns["risk_premium"] * ns["risk_score"];
    var q, d := ns["q"], ns["demand"];
    var x0, x1, x2, x3, x4 := rev * q, cost * q, hold * Max(q - d, 0.0), out * Max(d - q, 0.0), risk * q;
    var t0, t1 := Times(V("revenue_per_unit"), V("q")), Times(V("production_cost"), V("q"));
    var t2, t3 := Times(V("holding_cost"), Excess("q", "demand")), Times(V("stockout_penalty"), Excess("demand", "q"));
    var t4 := Times(Times(V("risk_premium"), V("risk_score")), V("q"));
    EvalRate(m, "revenue_per_unit", ns, x0);
    EvalRate(m, "production_cost", ns, x1);
    EvalPenalty(m, "holding_cost", "q", "demand", ns, x2);
    EvalPenalty(m, "stockout_penalty", "demand", "q", ns, x3);
    EvalRisk(m, ns, risk, x4);
    EvalMinus(m, t0, t1, ns, 0, x0, x1, x0 - x1);
    EvalMinus(m, Minus(t0, t1), t2, ns, 0, x0 - x1, x2, x0 - x1 - x2);
    EvalMinus(m, Minus(Minus(t0, t1), t2), t3, ns, 0, x0 - x1 - x2, x3, x0 - x1 - x2 - x3);
    EvalMinus(m, Minus(Minus(Minus(t0, t1), t2), t3), t4, ns, 0, x0 - x1 - x2 - x3, x4, x0 - x1 - x2 - x3 - x4);
    SupplierAlgebra(rev, cost, hold, out, risk, q, d, x0, x1, x2, x3, x4);
  }

  lemma PackagerAlgebra(fee: real, cost: real, over: real, soft: real, risk: real, q: real, x0: real, x1: real, x2: real, x3: real)
    requires x0 == fee * q && x1 == cost * q && x2 == over * Max(q - soft, 0.0) && x3 == risk * q
    ensures Pwl(0.0, fee - cost - risk, [Hinge(-over, soft)]).At(q) == x0 - x1 - x2 - x3
    ensures PackagerWorth(fee, cost, over, soft, risk, q) == x0 - x1 - x2 - x3
  {
    hide Pwl.At;
    OneHingeAt(0.0, fee - cost - risk, -over, soft, q, x0 - x1 - x3, -x2);
  }

  /** And the packager's, whose kink is its own soft capacity. */
  lemma PackagerValue(m: F.Math, ns: F.Namespace)
    requires PACKAGER_NAMES + {"risk_score", "q"} <= ns.Keys
    ensures F.Eval(m, PackagerFormula(), ns, 0) == Ok(PackagerPwl(ns).At(ns["q"]))
    ensures F.Eval(m, PackagerFormula(), ns, 0) == Ok(PackagerWorth(ns["packaging_fee"], ns["packaging_cost"], ns["overtime_penalty"],
                                                                    ns["soft_capacity"], ns["risk_premium"] * ns["risk_score"], ns["q"]))
  {
    hide F.Eval, Pwl.At, PackagerWorth;
    var fee, cost, over, soft, risk := ns["packaging_fee"], ns["packaging_cost"], ns["overtime_penalty"], ns["soft_capacity"], ns["risk_premium"] * ns["risk_score"];
    var q := ns["q"];
    var x0, x1, x2, x3 := fee * q, cost * q, over * Max(q - soft, 0.0), risk * q;
    var t0, t1 := Times(V("packaging_fee"), V("q")), Times(V("packaging_cost"), V("q"));
    var t2, t3 := Times(V("overtime_penalty"), Excess("q", "soft_capacity")), Times(Times(V("risk_premium"), V("risk_score")), V("q"));
    EvalRate(m, "packaging_fee", ns, x0);
    EvalRate(m, "packaging_cost", ns, x1);
    EvalPenalty(m, "overtime_penalty", "q", "soft_capacity", ns, x2);
    EvalRisk(m, ns, risk, x3);
    EvalMinus(m, t0, t1, ns, 0, x0, x1, x0 - x1);
    EvalMinus(m, Minus(t0, t1), t2, ns, 0, x0 - x1, x2, x0 - x1 - x2);
    EvalMinus(m, Minus(Minus(t0, t1), t2), t3, ns, 0, x0 - x1 - x2, x3, x0 - x1 - x2 - x3);
    PackagerAlgebra(fee, cost, over, soft, risk, q, x0, x1, x2, x3);
  }
}
