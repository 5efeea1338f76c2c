/** Task specifications, gate outcomes, budgets and the terminal triage. */
module Tasks {
  import opened Numeric
  import opened Reviews

  datatype Checkpoint = PlanReview | DiffReview | PrePr

  datatype Gate = Gate(name: string, mustPass: bool)

  datatype Outcome = Outcome(name: string, ok: bool, mustPass: bool)

  datatype Budget = Budget(wallClockMs: Option<int>, patchRounds: Option<int>, gateFailures: Option<int>, costUsd: Option<real>)

  datatype Policy = Policy(holdOnMustPass: bool, investigateAdvisory: bool, investigateCaveat: bool)

  datatype Task = Task(goal: string, gates: seq<Gate>, contract: seq<string>, panel: Panel, reviewRounds: int,
                       budget: Budget, checkpoints: set<Checkpoint>, prOpen: bool, policy: Policy)

  /** A contract check that failed; an advisory one is not required. */
  datatype Violation = Violation(name: string, required: bool)

  /** What the task loader enforces: declared budgets are not negative. Review rounds are unchecked. */
  ghost predicate Loaded(t: Task) {
    && (t.budget.wallClockMs.Some? ==> t.budget.wallClockMs.value >= 0)
    && (t.budget.patchRounds.Some? ==> t.budget.patchRounds.value >= 0)
    && (t.budget.gateFailures.Some? ==> t.budget.gateFailures.value >= 0)
    && (t.budget.costUsd.Some? ==> t.budget.costUsd.value >= 0.0)
  }

  // ---- gates

  predicate MustPassOk(outcomes: seq<Outcome>) {
    forall i :: 0 <= i < |outcomes| ==> outcomes[i].ok || !outcomes[i].mustPass
  }

  /** The outcomes of running the first n gates. */
  function RanGates(gates: seq<Gate>, exits: nat -> bool, n: nat): (outcomes: seq<Outcome>)
    requires n <= |gates|
    ensures |outcomes| == n
  {
    seq(n, i requires 0 <= i < n => Outcome(gates[i].name, exits(i), gates[i].mustPass))
  }

  /** `GateWorker.run_gates`: the aggregate is true exactly when every must-pass gate exited 0. */
  method RunGates(gates: seq<Gate>, exits: nat -> bool) returns (ok: bool, outcomes: seq<Outcome>)
    ensures outcomes == RanGates(gates, exits, |gates|)
    ensures ok <==> forall i: nat :: i < |gates| ==> exits(i) || !gates[i].mustPass
  {
    outcomes, ok := [], true;
    for i := 0 to |gates|
      invariant outcomes == RanGates(gates, exits, i)
      invariant ok <==> forall k: nat :: k < i ==> exits(k) || !gates[k].mustPass
    {
      var here := exits(i);
      outcomes := outcomes + [Outcome(gates[i].name, here, gates[i].mustPass)];
      if !here && gates[i].mustPass {
        ok := false;
      }
    }
  }

  function Violated(v: Violation): Outcome {
    Outcome(v.name, false, v.required)
  }

  function Upheld(part: string): Outcome {
    Outcome("contract:" + part, true, true)
  }

  /** The contract outcomes: every violation found, or else a pass for each part the task declares. */
  function ContractOutcomes(t: Task, violations: seq<Violation>): seq<Outcome> {
    if t.contract == [] then []
    else if violations != [] then seq(|violations|, i requires 0 <= i < |violations| => Violated(violations[i]))
    else seq(|t.contract|, i requires 0 <= i < |t.contract| => Upheld(t.contract[i]))
  }

  /** `_run_contract_gates`. */
  method RunContractGates(t: Task, violations: seq<Violation>) returns (ok: bool, outcomes: seq<Outcome>)
    ensures outcomes == ContractOutcomes(t, violations)
    ensures ok <==> t.contract == [] || forall i :: 0 <= i < |violations| ==> !violations[i].required
  {
    outcomes, ok := [], true;
    if t.contract == [] {
      return;
    }
    if violations != [] {
      for i := 0 to |violations|
        invariant outcomes == ContractOutcomes(t, violations)[..i]
        invariant ok <==> forall k :: 0 <= k < i ==> !violations[k].required
      {
        outcomes := outcomes + [Violated(violations[i])];
        ok := ok && !violations[i].required;
      }
      return;
    }
    for i := 0 to |t.contract|
      invariant outcomes == ContractOutcomes(t, violations)[..i]
    {
      outcomes := outcomes + [Upheld(t.contract[i])];
    }
  }

  function FailedCount(outcomes: seq<Outcome>): nat {
    if outcomes == [] then 0
    else (if !outcomes[0].ok && outcomes[0].mustPass then 1 else 0) + FailedCount(outcomes[1..])
  }

  lemma {:induction false} NoFailuresIff(outcomes: seq<Outcome>)
    ensures FailedCount(outcomes) == 0 <==> MustPassOk(outcomes)
  {
    if outcomes != [] {
      NoFailuresIff(outcomes[1..]);
      assert forall i :: 0 < i < |outcomes| ==> outcomes[i] == outcomes[1..][i - 1];
      assert MustPassOk(outcomes) <==> (outcomes[0].ok || !outcomes[0].mustPass) && MustPassOk(outcomes[1..]);
    }
  }

  /** The failures counted are the must-pass outcomes that are not ok: each counts one, and counts add up. */
  lemma {:induction false} FailedCountAdds(a: seq<Outcome>, b: seq<Outcome>, o: Outcome)
    ensures FailedCount(a + b) == FailedCount(a) + FailedCount(b)
    ensures FailedCount([o]) == if o.mustPass && !o.ok then 1 else 0
    decreases |a|
  {
    assert [o][1..] == [];
    if a == [] {
      assert a + b == b;
    } else {
      assert (a + b)[1..] == a[1..] + b;
      FailedCountAdds(a[1..], b, o);
    }
  }

  // ---- budgets

  datatype Cap = WallClock | PatchRounds | GateFailures | Cost

  function EffectiveMaxPatchRounds(t: Task): int {
    if t.budget.patchRounds.None? then t.reviewRounds
    else if t.budget.patchRounds.value < t.reviewRounds then t.budget.patchRounds.value
    else t.reviewRounds
  }

  predicate BudgetSetsPatchCap(t: Task) {
    t.budget.patchRounds.Some? && t.budget.patchRounds.value < t.reviewRounds
  }

  /** `_budget_limit_hit`: the first exceeded cap, in the source's order. */
  function BudgetLimitHit(t: Task, elapsedMs: int, patchRounds: int, gateFailures: int, costUsd: real): Option<Cap> {
    var b := t.budget;
    if b.wallClockMs.Some? && elapsedMs > b.wallClockMs.value then Some(WallClock)
    else if b.patchRounds.Some? && patchRounds > b.patchRounds.value then Some(PatchRounds)
    else if b.gateFailures.Some? && gateFailures > b.gateFailures.value then Some(GateFailures)
    else if b.costUsd.Some? && costUsd > b.costUsd.value then Some(Cost)
    else None
  }

  /** Nothing measured exceeds its declared cap. */
  ghost predicate Within(t: Task, elapsedMs: int, patchRounds: int, gateFailures: int, costUsd: real) {
    && (t.budget.wallClockMs.Some? ==> elapsedMs <= t.budget.wallClockMs.value)
    && (t.budget.patchRounds.Some? ==> patchRounds <= t.budget.patchRounds.value)
    && (t.budget.gateFailures.Some? ==> gateFailures <= t.budget.gateFailures.value)
    && (t.budget.costUsd.Some? ==> costUsd <= t.budget.costUsd.value)
  }

  /** The measure of one cap exceeds it. */
  ghost predicate Exceeds(t: Task, cap: Cap, elapsedMs: int, patchRounds: int, gateFailures: int, costUsd: real) {
    match cap
    case WallClock => t.budget.wallClockMs.Some? && elapsedMs > t.budget.wallClockMs.value
    case PatchRounds => t.budget.patchRounds.Some? && patchRounds > t.budget.patchRounds.value
    case GateFailures => t.budget.gateFailures.Some? && gateFailures > t.budget.gateFailures.value
    case Cost => t.budget.costUsd.Some? && costUsd > t.budget.costUsd.value
  }

  /** A cap is hit exactly when some measure exceeds its cap, and it is the first of the four that does. */
  lemma LimitHitIff(t: Task, elapsedMs: int, patchRounds: int, gateFailures: int, costUsd: real)
    ensures var hit := BudgetLimitHit(t, elapsedMs, patchRounds, gateFailures, costUsd);
      var over := (c: Cap) => Exceeds(t, c, elapsedMs, patchRounds, gateFailures, costUsd);
      && (hit.None? <==> Within(t, elapsedMs, patchRounds, gateFailures, costUsd))
      && (hit == Some(WallClock) <==> over(WallClock))
      && (hit == Some(PatchRounds) <==> over(PatchRounds) && !over(WallClock))
      && (hit == Some(GateFailures) <==> over(GateFailures) && !over(WallClock) && !over(PatchRounds))
      && (hit == Some(Cost) <==> over(Cost) && !over(WallClock) && !over(PatchRounds) && !over(GateFailures))
  {
  }

  lemma HitExceeds(t: Task, elapsedMs: int, patchRounds: int, gateFailures: int, costUsd: real)
    ensures var hit := BudgetLimitHit(t, elapsedMs, patchRounds, gateFailures, costUsd);
      hit.Some? ==> Exceeds(t, hit.value, elapsedMs, patchRounds, gateFailures, costUsd)
  {
  }

  /** The loop's bound is the review rounds, lowered to a smaller patch-round cap. */
  lemma CapIs(t: Task)
    ensures EffectiveMaxPatchRounds(t) <= t.reviewRounds
    ensures t.budget.patchRounds.Some? ==> EffectiveMaxPatchRounds(t) <= t.budget.patchRounds.value
    ensures EffectiveMaxPatchRounds(t) == t.reviewRounds
      || (t.budget.patchRounds.Some? && EffectiveMaxPatchRounds(t) == t.budget.patchRounds.value)
    ensures BudgetSetsPatchCap(t) <==> EffectiveMaxPatchRounds(t) < t.reviewRounds
  {
  }

  /** A patch-round cap is never what stops a round: the loop's own bound is at most that cap. */
  lemma PatchCapIsUnreachable(t: Task, round: int, elapsedMs: int, gateFailures: int, costUsd: real)
    requires round <= EffectiveMaxPatchRounds(t)
    ensures BudgetLimitHit(t, elapsedMs, round, gateFailures, costUsd) != Some(PatchRounds)
  {
  }

  // ---- triage

  datatype Triage = Pass | Investigate | Hold

  predicate AdvisoryFailure(outcomes: seq<Outcome>) {
    exists i :: 0 <= i < |outcomes| && !outcomes[i].ok && !outcomes[i].mustPass
  }

  /** `classify_terminal_state` for a done run. */
  function Classify(p: Policy, caveat: bool, outcomes: seq<Outcome>): Triage {
    if p.holdOnMustPass && !MustPassOk(outcomes) then Hold
    else if p.investigateAdvisory && AdvisoryFailure(outcomes) then Investigate
    else if p.investigateCaveat && caveat then Investigate
    else Pass
  }

  function TrimLeft(s: string): string {
    if s != [] && s[0] in " \t\n\r" then TrimLeft(s[1..]) else s
  }

  function TrimRight(s: string): string {
    if s != [] && s[|s| - 1] in " \t\n\r" then TrimRight(s[..|s| - 1]) else s
  }

  predicate Blank(c: char) {
    c == ' ' || c == '\t' || c == '\n' || c == '\r'
  }

  lemma {:induction false} LeftTrimmed(s: string) returns (i: nat)
    ensures i <= |s| && TrimLeft(s) == s[i..] && forall k :: 0 <= k < i ==> Blank(s[k])
    ensures i < |s| ==> !Blank(s[i])
  {
    if s != [] && Blank(s[0]) {
      i := LeftTrimmed(s[1..]);
      assert forall k :: 0 < k < i + 1 ==> s[k] == s[1..][k - 1];
      i := i + 1;
    } else {
      i := 0;
    }
  }

  lemma {:induction false} RightTrimmed(s: string) returns (j: nat)
    ensures j <= |s| && TrimRight(s) == s[..j] && forall k :: j <= k < |s| ==> Blank(s[k])
    ensures j > 0 ==> !Blank(s[j - 1])
  {
    var n := |s|;
    if s != [] && Blank(s[n - 1]) {
      j := RightTrimmed(s[..n - 1]);
      assert s[..n - 1][..j] == s[..j];
      assert forall k :: j <= k < n - 1 ==> s[k] == s[..n - 1][k];
    } else {
      j := n;
      assert s[..n] == s;
    }
  }

  /** Stripping drops the blanks at both ends and nothing else. */
  lemma Stripped(s: string) returns (i: nat, j: nat)
    ensures i <= j <= |s| && TrimRight(TrimLeft(s)) == s[i..j]
    ensures forall k :: 0 <= k < i || j <= k < |s| ==> Blank(s[k])
    ensures i < j ==> !Blank(s[i]) && !Blank(s[j - 1])
  {
    i := LeftTrimmed(s);
    var m := RightTrimmed(s[i..]);
    j := i + m;
    assert s[i..][..m] == s[i..j];
    assert forall k :: 0 <= k < |s| - i ==> s[i..][k] == s[i + k];
    forall k | 0 <= k < i || j <= k < |s|
      ensures Blank(s[k])
    {
      if k >= j {
        assert s[i..][k - i] == s[k];
      }
    }
  }

  /** `_review_is_ambiguous`: substantive text without an explicit verdict. */
  predicate Ambiguous(h: Heuristics, review: string) {
    var text := TrimRight(TrimLeft(review));
    && |text| >= 40
    && !HasStatus(text, Clean) && !HasMarker(text, "STATUS: NEEDS_PATCH") && !HasMarker(text, "STATUS: REJECT")
    && h.prose(text).None?
  }

  /** The triage that decides how a done run ships. */
  function TerminalTriage(h: Heuristics, p: Policy, outcomes: seq<Outcome>, review: string): Triage {
    var triage := Classify(p, h.caveat(review), outcomes);
    if triage == Pass && Ambiguous(h, review) then Investigate else triage
  }

  /**
   * A done run is held for a failed must-pass gate, if the policy says so; otherwise investigated for
   * a failed advisory gate or a caveat, if the policy says so, or for an ambiguous review in any
   * case; otherwise it passes.
   */
  lemma TriageIs(h: Heuristics, p: Policy, outcomes: seq<Outcome>, review: string)
    ensures var triage := TerminalTriage(h, p, outcomes, review);
      var held := p.holdOnMustPass && exists i :: 0 <= i < |outcomes| && !outcomes[i].ok && outcomes[i].mustPass;
      var advisory := p.investigateAdvisory && exists i :: 0 <= i < |outcomes| && !outcomes[i].ok && !outcomes[i].mustPass;
      && (triage == Hold <==> held)
      && (triage == Investigate <==> !held && (advisory || (p.investigateCaveat && h.caveat(review)) || Ambiguous(h, review)))
  {
    hide Ambiguous;
  }

  /** A review is ambiguous when, stripped, it has 40 characters, no status line and no prose verdict. */
  lemma AmbiguousIs(h: Heuristics, review: string, text: string)
    requires text == TrimRight(TrimLeft(review))
    ensures Ambiguous(h, review) <==>
      && |text| >= 40 && h.prose(text).None?
      && !HasMarker(text, "STATUS: CLEAN") && !HasMarker(text, "STATUS:CLEAN")
      && !HasMarker(text, "STATUS: NEEDS_PATCH") && !HasMarker(text, "STATUS: REJECT")
  {
    hide HasMarker, TrimLeft, TrimRight, HasStatus;
    StatusLines(Clean, "STATUS: CLEAN", "STATUS:CLEAN");
  }
}
