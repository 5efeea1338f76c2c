/** The cost-benefit transfer: how a plan's surplus over walking away is paid out. */
module Transfer {
  import opened Numeric

  const SLACK: real := 0.000001

  datatype Rule = Proportional | Equal | Unknown

  /** Local and walk-away utilities, participant by participant. */
  datatype Ledger = Ledger(local: seq<real>, outside: seq<real>) {
    ghost predicate Valid() {
      |local| == |outside| && |local| > 0
    }

    function Surplus(): real {
      Sum(local) - Sum(outside)
    }
  }

  datatype Plan = Plan(transfers: seq<real>, after: seq<real>, surplus: real, noWorseOff: seq<bool>, feasible: bool)

  function Deficits(l: Ledger): (r: seq<real>)
    requires l.Valid()
    ensures |r| == |l.local|
  {
    seq(|l.local|, i requires 0 <= i < |l.local| => Max(0.0, l.outside[i] - l.local[i]))
  }

  /** Everyone the same share. */
  function EqualGains(surplus: real, n: nat): (r: seq<real>)
    requires n > 0
    ensures |r| == n
  {
    seq(n, i => surplus / n as real)
  }

  /** Shares in proportion to each participant's shortfall. */
  function ProportionalGains(surplus: real, deficits: seq<real>, total: real): (r: seq<real>)
    requires total != 0.0
    ensures |r| == |deficits|
  {
    seq(|deficits|, i requires 0 <= i < |deficits| => surplus * (deficits[i] / total))
  }

  function Gains(l: Ledger, rule: Rule): (r: Result<seq<real>, string>)
    requires l.Valid()
    ensures r.Ok? ==> |r.value| == |l.local|
  {
    match rule
    case Equal => Ok(EqualGains(l.Surplus(), |l.local|))
    case Proportional =>
      var d := Deficits(l);
      Ok(if Sum(d) == 0.0 then EqualGains(l.Surplus(), |l.local|)
         else ProportionalGains(l.Surplus(), d, Sum(d)))
    case Unknown => Err("unknown rule")
  }

  /** `compute_transfer`: a negative surplus pays nothing and is infeasible, before the rule is read. */
  method ComputeTransfer(l: Ledger, rule: Rule) returns (r: Result<Plan, string>)
    requires l.Valid()
    ensures r.Err? <==> l.Surplus() >= 0.0 && rule.Unknown?
    ensures r.Ok? ==> r.value.surplus == l.Surplus()
    ensures r.Ok? && l.Surplus() < 0.0 ==>
      && r.value.transfers == seq(|l.local|, i => 0.0) && r.value.after == l.local && !r.value.feasible
      && |r.value.noWorseOff| == |l.local|
      && forall i :: 0 <= i < |l.local| ==> (r.value.noWorseOff[i] <==> l.local[i] >= l.outside[i])
    ensures r.Ok? && l.Surplus() >= 0.0 ==>
      && r.value.transfers == Gains(l, rule).value
      && |r.value.after| == |r.value.noWorseOff| == |l.local|
      && (forall i :: 0 <= i < |l.local| ==> r.value.after[i] == l.local[i] + r.value.transfers[i])
      && (forall i :: 0 <= i < |l.local| ==> (r.value.noWorseOff[i] <==> r.value.after[i] >= l.outside[i] - SLACK))
      && (r.value.feasible <==> forall i :: 0 <= i < |l.local| ==> r.value.after[i] >= l.outside[i] - SLACK)
  {
    hide Sum;
    var n := |l.local|;
    var surplus := l.Surplus();
    if surplus < 0.0 {
      var flags := seq(n, i requires 0 <= i < n => l.local[i] >= l.outside[i]);
      return Ok(Plan(seq(n, i => 0.0), l.local, surplus, flags, false));
    }
    var gains := Gains(l, rule);
    if gains.Err? {
      return Err(gains.error);
    }
    var transfers: seq<real>, after: seq<real>, noWorseOff: seq<bool>, feasible := [], [], [], true;
    for i := 0 to n
      invariant transfers == gains.value[..i] && |after| == |noWorseOff| == i
      invariant forall k :: 0 <= k < i ==> after[k] == l.local[k] + gains.value[k]
      invariant forall k :: 0 <= k < i ==> (noWorseOff[k] <==> after[k] >= l.outside[k] - SLACK)
      invariant feasible <==> forall k :: 0 <= k < i ==> after[k] >= l.outside[k] - SLACK
    {
      var paid := l.local[i] + gains.value[i];
      var ok := paid >= l.outside[i] - SLACK;
      transfers := transfers + [gains.value[i]];
      after := after + [paid];
      noWorseOff := noWorseOff + [ok];
      feasible := feasible && ok;
    }
    r := Ok(Plan(transfers, after, surplus, noWorseOff, feasible));
  }

  // ---- what the gains add up to

  lemma EqualGainsSum(surplus: real, n: nat)
    requires n > 0
    ensures Sum(EqualGains(surplus, n)) == surplus
  {
    SumConstant(EqualGains(surplus, n), surplus / n as real, n);
    DivMul(surplus, n as real);
  }

  lemma ShareForm(surplus: real, d: real, total: real)
    requires total != 0.0
    ensures surplus * (d / total) == surplus / total * d
  {
    var a, b := d / total, surplus / total;
    assert a * total == d && b * total == surplus;
    assert surplus * a == b * total * a;
  }

  lemma ShareTimes(surplus: real, d: real, total: real)
    requires total != 0.0
    ensures surplus * (d / total) * total == surplus * d
  {
    var a := d / total;
    assert a * total == d;
    assert surplus * a * total == surplus * (a * total);
  }

  lemma ProportionalGainsSum(surplus: real, deficits: seq<real>, total: real)
    requires total != 0.0 && total == Sum(deficits)
    ensures Sum(ProportionalGains(surplus, deficits, total)) == surplus
  {
    var k := surplus / total;
    var g := ProportionalGains(surplus, deficits, total);
    forall i | 0 <= i < |g|
      ensures g[i] == k * deficits[i] + 0.0 * deficits[i] + 0.0
    {
      ShareForm(surplus, deficits[i], total);
    }
    SumLinear(g, k, deficits, 0.0, deficits, 0.0, |g|);
    DivMul(surplus, total);
  }

  /**
   * Who is paid what: under the equal rule everyone the same; under the proportional rule everyone in
   * proportion to what the plan leaves them short of walking away, or the same when nobody is short.
   */
  lemma SharesAre(l: Ledger, rule: Rule, i: nat)
    requires l.Valid() && !rule.Unknown? && i < |l.local|
    ensures var paid, short := Gains(l, rule).value[i], Sum(Deficits(l));
      if rule.Proportional? && short != 0.0 then paid * short == (Sum(l.local) - Sum(l.outside)) * Max(0.0, l.outside[i] - l.local[i])
      else paid * |l.local| as real == Sum(l.local) - Sum(l.outside)
  {
    hide Sum;
    var d := Deficits(l);
    DivMul(l.Surplus(), |l.local| as real);
    if rule.Proportional? && Sum(d) != 0.0 {
      ShareForm(l.Surplus(), d[i], Sum(d));
      ShareTimes(l.Surplus(), d[i], Sum(d));
    }
  }

  /** Under either rule the payments add up to the whole surplus. */
  lemma TransfersSumToSurplus(l: Ledger, rule: Rule)
    requires l.Valid() && !rule.Unknown?
    ensures Sum(Gains(l, rule).value) == l.Surplus()
  {
    hide Sum;
    var d := Deficits(l);
    EqualGainsSum(l.Surplus(), |l.local|);
    if Sum(d) != 0.0 {
      ProportionalGainsSum(l.Surplus(), d, Sum(d));
    }
  }

  /**
   * The documentation says transfers sum to zero and move surplus between parties; the code
   * pays the surplus on top of utilities that already contain it. So the settled utilities
   * total the plan's utility exactly when there is no surplus to pay.
   */
  lemma BudgetBalancedIff(l: Ledger, rule: Rule, after: seq<real>)
    requires l.Valid() && !rule.Unknown? && |after| == |l.local|
    requires forall i :: 0 <= i < |after| ==> after[i] == l.local[i] + Gains(l, rule).value[i]
    ensures Sum(after) == Sum(l.local) + l.Surplus()
    ensures Sum(after) == Sum(l.local) <==> l.Surplus() == 0.0
  {
    hide EqualGains, ProportionalGains, Sum, Ledger.Surplus;
    var g := Gains(l, rule).value;
    SumLinear(after, 1.0, l.local, 1.0, g, 0.0, |after|);
    SumIsSumTo(after);
    SumIsSumTo(l.local);
    SumIsSumTo(g);
    TransfersSumToSurplus(l, rule);
  }

  // ---- when the plan is feasible

  predicate Feasible(l: Ledger, rule: Rule)
    requires l.Valid() && !rule.Unknown?
  {
    forall i :: 0 <= i < |l.local| ==> l.local[i] + Gains(l, rule).value[i] >= l.outside[i] - SLACK
  }

  lemma GainsNonNegative(l: Ledger, rule: Rule, i: nat)
    requires l.Valid() && !rule.Unknown? && l.Surplus() >= 0.0 && i < |l.local|
    ensures Gains(l, rule).value[i] >= 0.0
  {
    hide Sum;
    var s, n := l.Surplus(), |l.local| as real;
    DivMul(s, n);
    var d := Deficits(l);
    SumNonNegative(d, |d|);
    if rule.Proportional? && Sum(d) != 0.0 {
      SumIsSumTo(d);
      DivMul(d[i], Sum(d));
      MulMonotone(0.0, d[i] / Sum(d), s);
    }
  }

  /** A party's part d of the uncovered shortfall is within 1e-6: d * (D - surplus) <= 1e-6 * D. */
  predicate NearlyCovered(d: real, total: real, surplus: real) {
    d * (total - surplus) <= SLACK * total
  }

  /** One party is made whole exactly when its part of the uncovered shortfall is within 1e-6. */
  lemma WholeIff(local: real, outside: real, surplus: real, total: real, gain: real)
    requires total > 0.0 && surplus >= 0.0
    requires gain == surplus * (Max(0.0, outside - local) / total)
    ensures local + gain >= outside - SLACK <==> NearlyCovered(Max(0.0, outside - local), total, surplus)
  {
    var d := Max(0.0, outside - local);
    ShareForm(surplus, d, total);
    var r := d / total;
    DivMul(d, total);
    assert gain * total == surplus * d by {
      assert surplus * r * total == surplus * (r * total);
    }
    assert d * (total - surplus) == d * total - surplus * d;
    var gap := d - gain - SLACK;
    assert gap * total == d * (total - surplus) - SLACK * total;
    if gap > 0.0 {
      MulStrict(0.0, gap, total);
    } else {
      MulMonotone(gap, 0.0, total);
    }
    assert gain >= 0.0 by {
      MulMonotone(0.0, r, surplus);
    }
    if d == 0.0 {
      assert d * total == 0.0;
    }
  }

  /**
   * Proportional rule, non-negative surplus. With shortfall D > 0 the plan is feasible exactly
   * when d_i * (D - surplus) <= 1e-6 * D for every party; with no shortfall it always is.
   */
  lemma ProportionalFeasibleIff(l: Ledger)
    requires l.Valid() && l.Surplus() >= 0.0
    ensures Feasible(l, Proportional) <==>
      Sum(Deficits(l)) == 0.0
      || forall i :: 0 <= i < |l.local| ==> NearlyCovered(Deficits(l)[i], Sum(Deficits(l)), l.Surplus())
  {
    hide Sum, Ledger.Surplus, NearlyCovered;
    var d := Deficits(l);
    SumNonNegative(d, |d|);
    SumIsSumTo(d);
    if Sum(d) == 0.0 {
      forall i | 0 <= i < |l.local|
        ensures l.local[i] + Gains(l, Proportional).value[i] >= l.outside[i] - SLACK
      {
        GainsNonNegative(l, Proportional, i);
        assert d[i] <= 0.0;
      }
    } else {
      forall i | 0 <= i < |l.local|
        ensures l.local[i] + Gains(l, Proportional).value[i] >= l.outside[i] - SLACK
           <==> NearlyCovered(d[i], Sum(d), l.Surplus())
      {
        WholeIff(l.local[i], l.outside[i], l.Surplus(), Sum(d), Gains(l, Proportional).value[i]);
      }
    }
  }

  lemma CoveredBySurplus(d: real, total: real, surplus: real)
    requires d >= 0.0 && 0.0 <= total <= surplus
    ensures NearlyCovered(d, total, surplus)
  {
    MulMonotone(total - surplus, 0.0, d);
  }

  /** In particular a surplus covering the whole shortfall makes everyone whole. */
  lemma CoveringSurplusIsFeasible(l: Ledger)
    requires l.Valid() && l.Surplus() >= 0.0 && l.Surplus() >= Sum(Deficits(l))
    ensures Feasible(l, Proportional)
  {
    hide Sum, Ledger.Surplus, NearlyCovered, Feasible;
    ProportionalFeasibleIff(l);
    var d := Deficits(l);
    SumNonNegative(d, |d|);
    SumIsSumTo(d);
    forall i | 0 <= i < |l.local|
      ensures NearlyCovered(d[i], Sum(d), l.Surplus())
    {
      CoveredBySurplus(d[i], Sum(d), l.Surplus());
    }
  }
}
