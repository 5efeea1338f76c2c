/** How the implement loop ends and what it logs, from the answers of its rounds alone. */
module LoopOutcomes {
  import opened Numeric
  import opened Reviews
  import opened Tasks
  import opened Stores
  import opened ImplementLoop
  import E = RunEvidence

  // ---- one round's outcomes

  /** Every gate that must pass does, and no required part of a declared contract is violated; a dry run's stubs all pass. */
  ghost predicate Passes(t: Task, dryRun: bool, r: Round) {
    dryRun
    || (&& r.materialDiff
        && (forall i: nat :: i < |t.gates| ==> r.exits(i) || !t.gates[i].mustPass)
        && (t.contract == [] || forall i :: 0 <= i < |r.violations| ==> !r.violations[i].required))
  }

  lemma PassesIff(t: Task, dryRun: bool, r: Round)
    ensures MustPassOk(RoundOutcomes(t, dryRun, r)) <==> Passes(t, dryRun, r)
  {
    if dryRun {
      StubbedOk(t.gates);
    } else if !r.materialDiff {
      assert !RoundOutcomes(t, dryRun, r)[0].ok;
    } else {
      var plain := RanGates(t.gates, r.exits, |t.gates|);
      MustPassConcat(plain, ContractOutcomes(t, r.violations));
      ContractOk(t, r.violations);
      assert forall i: nat :: i < |t.gates| ==> plain[i].ok == r.exits(i) && plain[i].mustPass == t.gates[i].mustPass;
      assert MustPassOk(plain) <==> forall i: nat :: i < |t.gates| ==> r.exits(i) || !t.gates[i].mustPass;
    }
  }

  /** A round without a diff is one failed outcome; otherwise each gate reports its own exit, then the contract. */
  lemma OutcomesAre(t: Task, dryRun: bool, r: Round)
    ensures var outcomes := RoundOutcomes(t, dryRun, r); var n := |t.gates|;
      && (!dryRun && !r.materialDiff ==> outcomes == [Outcome("implementation-diff", false, true)])
      && (dryRun || r.materialDiff ==> n <= |outcomes| && forall i :: 0 <= i < n ==>
           outcomes[i] == Outcome(t.gates[i].name, dryRun || r.exits(i), t.gates[i].mustPass))
      && (dryRun || (r.materialDiff && t.contract == []) ==> |outcomes| == n)
      && (!dryRun && r.materialDiff && t.contract != [] && r.violations != [] ==>
           |outcomes| == n + |r.violations| && forall i :: 0 <= i < |r.violations| ==>
             outcomes[n + i] == Outcome(r.violations[i].name, false, r.violations[i].required))
      && (!dryRun && r.materialDiff && t.contract != [] && r.violations == [] ==>
           |outcomes| == n + |t.contract| && forall i :: 0 <= i < |t.contract| ==>
             outcomes[n + i] == Outcome("contract:" + t.contract[i], true, true))
  {
  }

  /** Named outcomes are emitted one for one; otherwise everything before the first unnamed one is. */
  lemma {:induction false} ChecksAre(outcomes: seq<Outcome>)
    ensures var checks := Checks(outcomes);
      && |checks| <= |outcomes| && (|checks| == |outcomes| <==> AllNamed(outcomes))
      && (|checks| < |outcomes| ==> outcomes[|checks|].name == "")
      && forall i :: 0 <= i < |checks| ==>
           checks[i] == E.GateCheck(if outcomes[i].ok then E.Passed else E.Failed, Some(outcomes[i].name)) && outcomes[i].name != ""
  {
    if outcomes != [] && outcomes[0].name != "" {
      var rest := outcomes[1..];
      ChecksAre(rest);
      assert forall i :: 0 < i < |outcomes| ==> outcomes[i] == rest[i - 1];
      assert AllNamed(outcomes) <==> AllNamed(rest);
    }
  }

  // ---- what earlier rounds leave behind

  function CostBefore(dryRun: bool, rounds: nat -> Round, k: nat): real {
    if k == 0 || dryRun then 0.0 else CostBefore(dryRun, rounds, k - 1) + rounds(k - 1).costUsd
  }

  function FailuresBefore(t: Task, dryRun: bool, rounds: nat -> Round, k: nat): nat {
    if k == 0 then 0 else FailuresBefore(t, dryRun, rounds, k - 1) + FailedCount(RoundOutcomes(t, dryRun, rounds(k - 1)))
  }

  /** The transcript of a round: stubs say CLEAN after passing gates, NEEDS_PATCH after failing ones. */
  ghost function TextOf(t: Task, dryRun: bool, r: Round): string {
    ReviewText(t.panel, r.replies, dryRun, if Passes(t, dryRun, r) then Clean else NeedsPatch)
  }

  ghost function LocalsBefore(t: Task, dryRun: bool, rounds: nat -> Round, k: nat): Locals {
    if k == 0 then Locals(0, 0.0, "", [])
    else Locals(FailuresBefore(t, dryRun, rounds, k), CostBefore(dryRun, rounds, k),
                TextOf(t, dryRun, rounds(k - 1)), RoundOutcomes(t, dryRun, rounds(k - 1)))
  }

  // ---- when a round asks for another one

  ghost predicate MayBegin(t: Task, dryRun: bool, rounds: nat -> Round, k: nat) {
    Within(t, rounds(k).elapsedStart, k, FailuresBefore(t, dryRun, rounds, k), CostBefore(dryRun, rounds, k))
  }

  ghost predicate Implemented(dryRun: bool, r: Round) {
    dryRun || r.implementOk
  }

  /** After failing gates the budget is looked at again. */
  ghost predicate MayGoOn(t: Task, dryRun: bool, rounds: nat -> Round, k: nat) {
    Passes(t, dryRun, rounds(k))
    || Within(t, rounds(k).elapsedGates, k, FailuresBefore(t, dryRun, rounds, k + 1), CostBefore(dryRun, rounds, k + 1))
  }

  /** The round gets past its gates, and, if the ledger takes all its checks, as far as its reviewers. */
  ghost predicate Gated(t: Task, dryRun: bool, rounds: nat -> Round, k: nat) {
    MayBegin(t, dryRun, rounds, k) && Implemented(dryRun, rounds(k)) && MayGoOn(t, dryRun, rounds, k)
  }

  ghost predicate Reviewable(t: Task, dryRun: bool, rounds: nat -> Round, k: nat) {
    Gated(t, dryRun, rounds, k) && AllNamed(RoundOutcomes(t, dryRun, rounds(k)))
  }

  /** Its gates pass and its reviewers say v. */
  ghost predicate Judged(h: Heuristics, t: Task, dryRun: bool, r: Round, v: Verdict) {
    Passes(t, dryRun, r) && CombinedStatus(h, TextOf(t, dryRun, r)) == v
  }

  ghost predicate Continues(h: Heuristics, t: Task, dryRun: bool, rounds: nat -> Round, k: nat) {
    && Reviewable(t, dryRun, rounds, k) && k < EffectiveMaxPatchRounds(t)
    && !Judged(h, t, dryRun, rounds(k), Clean) && !Judged(h, t, dryRun, rounds(k), Reject)
  }

  /** What a round logs up to its gates, and up to its review. */
  ghost function GatesLog(t: Task, dryRun: bool, r: Round, k: nat): seq<Op> {
    [Append(ImplementDone(k)), Append(GatesDone(k, Passes(t, dryRun, r), RoundOutcomes(t, dryRun, r)))]
    + if Passes(t, dryRun, r) then [] else [Append(GatesFailed(k))]
  }

  ghost function RoundLog(t: Task, dryRun: bool, r: Round, k: nat): seq<Op> {
    GatesLog(t, dryRun, r, k) + [SetReview(TextOf(t, dryRun, r))]
  }

  /** The gate half of a round that the budget and the implementer let through. */
  lemma GatesRun(t: Task, dryRun: bool, k: nat, r: Round, v: Locals, failures: nat, cost: real)
    requires Within(t, r.elapsedStart, k, v.failures, v.costUsd) && Implemented(dryRun, r)
    requires failures == v.failures + FailedCount(RoundOutcomes(t, dryRun, r))
    requires cost == v.costUsd + if dryRun then 0.0 else r.costUsd
    requires Passes(t, dryRun, r) || Within(t, r.elapsedGates, k, failures, cost)
    ensures var g := GateStep(t, dryRun, k, r, v); var outcomes := RoundOutcomes(t, dryRun, r);
      && g.ops == GatesLog(t, dryRun, r, k)
      && g.checks == Checks(outcomes) && g.end == (if AllNamed(outcomes) then None else Some(Crashed))
      && g.locals == Locals(failures, cost, v.review, outcomes)
  {
    hide RoundOutcomes, MustPassOk, Checks, AllNamed, BudgetLimitHit, Passes, Within, FailedCount;
    PassesIff(t, dryRun, r);
    NoFailuresIff(RoundOutcomes(t, dryRun, r));
    LimitHitIff(t, r.elapsedStart, k, v.failures, v.costUsd);
    LimitHitIff(t, r.elapsedGates, k, failures, cost);
  }

  /** The gate half of a round that is stopped before its reviewers. */
  lemma GatesStop(t: Task, dryRun: bool, k: nat, r: Round, v: Locals, failures: nat, cost: real)
    requires failures == v.failures + FailedCount(RoundOutcomes(t, dryRun, r))
    requires cost == v.costUsd + if dryRun then 0.0 else r.costUsd
    ensures var g := GateStep(t, dryRun, k, r, v);
      && (!Within(t, r.elapsedStart, k, v.failures, v.costUsd) ==>
           g.end == Some(BudgetEnd) && g.checks == [] && exists cap ::
             && g.ops == [SetStatus(Blocked), Append(BudgetExhausted(k, cap))]
             && Exceeds(t, cap, r.elapsedStart, k, v.failures, v.costUsd))
      && (Within(t, r.elapsedStart, k, v.failures, v.costUsd) && !Implemented(dryRun, r) ==>
           g.end == Some(RejectedEnd) && g.checks == [] && g.ops == [SetStatus(FailedStatus), Append(ImplementFailed(k))])
      && (Within(t, r.elapsedStart, k, v.failures, v.costUsd) && Implemented(dryRun, r)
          && !Passes(t, dryRun, r) && !Within(t, r.elapsedGates, k, failures, cost) ==>
           g.end == Some(BudgetEnd) && g.checks == [] && exists cap ::
             && g.ops == GatesLog(t, dryRun, r, k) + [SetStatus(Blocked), Append(BudgetExhausted(k, cap))]
             && Exceeds(t, cap, r.elapsedGates, k, failures, cost))
  {
    hide RoundOutcomes, MustPassOk, Checks, AllNamed, BudgetLimitHit, Passes, Within, FailedCount, Exceeds;
    PassesIff(t, dryRun, r);
    LimitHitIff(t, r.elapsedStart, k, v.failures, v.costUsd);
    LimitHitIff(t, r.elapsedGates, k, failures, cost);
    HitExceeds(t, r.elapsedStart, k, v.failures, v.costUsd);
    HitExceeds(t, r.elapsedGates, k, failures, cost);
    var hit := BudgetLimitHit(t, r.elapsedStart, k, v.failures, v.costUsd);
    if hit.Some? {
      assert GateStep(t, dryRun, k, r, v).ops == [SetStatus(Blocked), Append(BudgetExhausted(k, hit.value))];
    }
    if hit.None? && Implemented(dryRun, r) && !Passes(t, dryRun, r) && !Within(t, r.elapsedGates, k, failures, cost) {
      var late := BudgetLimitHit(t, r.elapsedGates, k, failures, cost);
      assert GateStep(t, dryRun, k, r, v).ops
        == GatesLog(t, dryRun, r, k) + [SetStatus(Blocked), Append(BudgetExhausted(k, late.value))];
    }
  }

  /** The review half. */
  lemma ReviewIs(h: Heuristics, t: Task, dryRun: bool, k: nat, r: Round, v: Locals)
    requires v.outcomes == RoundOutcomes(t, dryRun, r)
    ensures var g := ReviewStep(h, t, dryRun, k, r, v); var text := TextOf(t, dryRun, r);
      var more := k < EffectiveMaxPatchRounds(t) && !Judged(h, t, dryRun, r, Clean) && !Judged(h, t, dryRun, r, Reject);
      && g.checks == [] && g.locals == v.(review := text)
      && g.ops == [SetReview(text)] + (if more || Judged(h, t, dryRun, r, Clean) then [] else [SetStatus(Blocked)])
      && (g.end.None? <==> more)
      && (g.end == Some(Reviewed(text)) <==> Judged(h, t, dryRun, r, Clean))
      && (g.end == Some(RejectedEnd) <==> Judged(h, t, dryRun, r, Reject))
      && (g.end == Some(BudgetEnd) ==> EffectiveMaxPatchRounds(t) < t.reviewRounds)
      && (g.end == Some(BlockedEnd) ==> EffectiveMaxPatchRounds(t) == t.reviewRounds)
      && (g.end.Some? ==> g.end.value in {Reviewed(text), RejectedEnd, BudgetEnd, BlockedEnd})
  {
    hide RoundOutcomes, MustPassOk, Passes, ReviewText, CombinedStatus, EffectiveMaxPatchRounds;
    PassesIff(t, dryRun, r);
    CapIs(t);
  }

  lemma BeforeNext(t: Task, dryRun: bool, rounds: nat -> Round, k: nat)
    ensures var v := LocalsBefore(t, dryRun, rounds, k);
      && v.failures == FailuresBefore(t, dryRun, rounds, k) && v.costUsd == CostBefore(dryRun, rounds, k)
      && FailuresBefore(t, dryRun, rounds, k + 1) == v.failures + FailedCount(RoundOutcomes(t, dryRun, rounds(k)))
      && CostBefore(dryRun, rounds, k + 1) == v.costUsd + if dryRun then 0.0 else rounds(k).costUsd
  {
    hide RoundOutcomes, FailedCount, TextOf;
  }

  lemma NextLocals(t: Task, dryRun: bool, rounds: nat -> Round, k: nat)
    ensures LocalsBefore(t, dryRun, rounds, k + 1) ==
      Locals(FailuresBefore(t, dryRun, rounds, k + 1), CostBefore(dryRun, rounds, k + 1), TextOf(t, dryRun, rounds(k)), RoundOutcomes(t, dryRun, rounds(k)))
  {
  }

  lemma RoundContinues(h: Heuristics, t: Task, dryRun: bool, rounds: nat -> Round, k: nat)
    requires Continues(h, t, dryRun, rounds, k)
    ensures RoundStep(h, t, dryRun, k, rounds(k), LocalsBefore(t, dryRun, rounds, k)) ==
      Step(RoundLog(t, dryRun, rounds(k), k), Checks(RoundOutcomes(t, dryRun, rounds(k))), None, LocalsBefore(t, dryRun, rounds, k + 1))
  {
    hide GateStep, ReviewStep, RoundOutcomes, Passes, Within, FailedCount, TextOf, GatesLog, Judged, Checks, AllNamed,
      LocalsBefore, FailuresBefore, CostBefore;
    var r, v := rounds(k), LocalsBefore(t, dryRun, rounds, k);
    BeforeNext(t, dryRun, rounds, k);
    var failures, cost := FailuresBefore(t, dryRun, rounds, k + 1), CostBefore(dryRun, rounds, k + 1);
    GatesRun(t, dryRun, k, r, v, failures, cost);
    var gates := GateStep(t, dryRun, k, r, v);
    ReviewIs(h, t, dryRun, k, r, gates.locals);
    NextLocals(t, dryRun, rounds, k);
  }

  // ---- the whole loop

  ghost function LogBefore(t: Task, dryRun: bool, rounds: nat -> Round, k: nat): seq<Op> {
    if k == 0 then [] else LogBefore(t, dryRun, rounds, k - 1) + RoundLog(t, dryRun, rounds(k - 1), k - 1)
  }

  function ChecksBefore(t: Task, dryRun: bool, rounds: nat -> Round, k: nat): seq<E.Event> {
    if k == 0 then [] else ChecksBefore(t, dryRun, rounds, k - 1) + Checks(RoundOutcomes(t, dryRun, rounds(k - 1)))
  }

  lemma BoundOf(h: Heuristics, t: Task, dryRun: bool, rounds: nat -> Round, k: nat)
    requires Continues(h, t, dryRun, rounds, k)
    ensures k < EffectiveMaxPatchRounds(t)
  {
  }

  lemma {:induction false} Reaches(h: Heuristics, t: Task, dryRun: bool, rounds: nat -> Round, k: nat)
    requires forall j: nat :: j < k ==> Continues(h, t, dryRun, rounds, j)
    ensures var sofar := Step(LogBefore(t, dryRun, rounds, k), ChecksBefore(t, dryRun, rounds, k), None, LocalsBefore(t, dryRun, rounds, k));
      Loop(h, t, dryRun, rounds) == Then(sofar, LoopFrom(h, t, dryRun, rounds, k, LocalsBefore(t, dryRun, rounds, k)))
  {
    hide RoundStep, RoundOutcomes, Checks, RoundLog, Continues, LoopFrom;
    if k == 0 {
      var all := LoopFrom(h, t, dryRun, rounds, 0, START);
      assert Step([] + all.ops, [] + all.checks, all.end, all.locals) == all;
    } else {
      hide LocalsBefore;
      var v, v' := LocalsBefore(t, dryRun, rounds, k - 1), LocalsBefore(t, dryRun, rounds, k);
      Reaches(h, t, dryRun, rounds, k - 1);
      BoundOf(h, t, dryRun, rounds, k - 1);
      Unroll(h, t, dryRun, rounds, k - 1, v);
      RoundContinues(h, t, dryRun, rounds, k - 1);
      var sofar := Step(LogBefore(t, dryRun, rounds, k - 1), ChecksBefore(t, dryRun, rounds, k - 1), None, v);
      ThenAssociates(sofar, RoundStep(h, t, dryRun, k - 1, rounds(k - 1), v), LoopFrom(h, t, dryRun, rounds, k, v'));
    }
  }

  /** Round n is the one the loop ends in. */
  ghost predicate EndsIn(h: Heuristics, t: Task, dryRun: bool, rounds: nat -> Round, n: nat) {
    && n <= EffectiveMaxPatchRounds(t)
    && (forall k: nat :: k < n ==> Continues(h, t, dryRun, rounds, k))
    && !Continues(h, t, dryRun, rounds, n)
  }

  /** With a bound that is not negative there is such a round. */
  lemma EndsSomewhere(h: Heuristics, t: Task, dryRun: bool, rounds: nat -> Round) returns (n: nat)
    requires EffectiveMaxPatchRounds(t) >= 0
    ensures EndsIn(h, t, dryRun, rounds, n)
  {
    hide Reviewable, Judged, EffectiveMaxPatchRounds;
    n := 0;
    while Continues(h, t, dryRun, rounds, n)
      invariant n <= EffectiveMaxPatchRounds(t)
      invariant forall k: nat :: k < n ==> Continues(h, t, dryRun, rounds, k)
      decreases EffectiveMaxPatchRounds(t) - n
    {
      BoundOf(h, t, dryRun, rounds, n);
      n := n + 1;
    }
  }

  /** The loop is the rounds before its last, then that round, and nothing after it. */
  lemma LoopIs(h: Heuristics, t: Task, dryRun: bool, rounds: nat -> Round, n: nat)
    requires EndsIn(h, t, dryRun, rounds, n)
    requires RoundStep(h, t, dryRun, n, rounds(n), LocalsBefore(t, dryRun, rounds, n)).end.Some?
    ensures var last := RoundStep(h, t, dryRun, n, rounds(n), LocalsBefore(t, dryRun, rounds, n));
      Loop(h, t, dryRun, rounds) == Step(LogBefore(t, dryRun, rounds, n) + last.ops, ChecksBefore(t, dryRun, rounds, n) + last.checks, last.end, last.locals)
  {
    hide RoundStep, Continues, LocalsBefore, LogBefore, ChecksBefore, Loop, LoopFrom, EffectiveMaxPatchRounds;
    Reaches(h, t, dryRun, rounds, n);
    Unroll(h, t, dryRun, rounds, n, LocalsBefore(t, dryRun, rounds, n));
  }

  /** Neither CLEAN nor REJECT after passing gates: the round wants a patch. */
  ghost predicate WantsPatch(h: Heuristics, t: Task, dryRun: bool, r: Round) {
    !Judged(h, t, dryRun, r, Clean) && !Judged(h, t, dryRun, r, Reject)
  }

  /** How the loop ends in round n. */
  ghost predicate EndOfRound(h: Heuristics, t: Task, dryRun: bool, rounds: nat -> Round, n: nat, end: LoopEnd) {
    var r, cap := rounds(n), EffectiveMaxPatchRounds(t);
    match end
    case Reviewed(text) => text == TextOf(t, dryRun, r) && Reviewable(t, dryRun, rounds, n) && Judged(h, t, dryRun, r, Clean)
    case RejectedEnd =>
      || (MayBegin(t, dryRun, rounds, n) && !Implemented(dryRun, r))
      || (Reviewable(t, dryRun, rounds, n) && Judged(h, t, dryRun, r, Reject))
    case Crashed => Gated(t, dryRun, rounds, n) && !Reviewable(t, dryRun, rounds, n)
    case BudgetEnd =>
      || !MayBegin(t, dryRun, rounds, n)
      || (Implemented(dryRun, r) && !MayGoOn(t, dryRun, rounds, n))
      || (Reviewable(t, dryRun, rounds, n) && WantsPatch(h, t, dryRun, r) && cap < t.reviewRounds)
    case BlockedEnd => Reviewable(t, dryRun, rounds, n) && WantsPatch(h, t, dryRun, r) && cap == t.reviewRounds
  }

  /** A stop for the budget in round n, naming a cap that the measures exceed. */
  ghost predicate OutOfBudget(t: Task, ops: seq<Op>, n: nat, elapsedMs: int, failures: nat, cost: real) {
    && |ops| == 2 && ops[0] == SetStatus(Blocked)
    && ops[1].Append? && ops[1].event.BudgetExhausted? && ops[1].event.round == n
    && Exceeds(t, ops[1].event.cap, elapsedMs, n, failures, cost)
  }

  /** What its last round logs. */
  ghost predicate LogOfLast(h: Heuristics, t: Task, dryRun: bool, rounds: nat -> Round, n: nat, ops: seq<Op>) {
    var r := rounds(n);
    && (!MayBegin(t, dryRun, rounds, n) ==>
         OutOfBudget(t, ops, n, r.elapsedStart, FailuresBefore(t, dryRun, rounds, n), CostBefore(dryRun, rounds, n)))
    && (MayBegin(t, dryRun, rounds, n) && !Implemented(dryRun, r) ==> ops == [SetStatus(FailedStatus), Append(ImplementFailed(n))])
    && (MayBegin(t, dryRun, rounds, n) && Implemented(dryRun, r) && !MayGoOn(t, dryRun, rounds, n) ==>
         && GatesLog(t, dryRun, r, n) <= ops
         && OutOfBudget(t, ops[|GatesLog(t, dryRun, r, n)|..], n, r.elapsedGates,
                        FailuresBefore(t, dryRun, rounds, n + 1), CostBefore(dryRun, rounds, n + 1)))
    && (Gated(t, dryRun, rounds, n) && !Reviewable(t, dryRun, rounds, n) ==> ops == GatesLog(t, dryRun, r, n))
    && (Reviewable(t, dryRun, rounds, n) ==>
         ops == RoundLog(t, dryRun, r, n) + if Judged(h, t, dryRun, r, Clean) then [] else [SetStatus(Blocked)])
  }

  lemma LastRound(h: Heuristics, t: Task, dryRun: bool, rounds: nat -> Round, n: nat)
    requires EndsIn(h, t, dryRun, rounds, n)
    ensures var g := RoundStep(h, t, dryRun, n, rounds(n), LocalsBefore(t, dryRun, rounds, n));
      && g.end.Some? && EndOfRound(h, t, dryRun, rounds, n, g.end.value)
      && LogOfLast(h, t, dryRun, rounds, n, g.ops)
      && g.checks == (if Gated(t, dryRun, rounds, n) then Checks(RoundOutcomes(t, dryRun, rounds(n))) else [])
      && (g.end.value.Reviewed? ==> g.locals.outcomes == RoundOutcomes(t, dryRun, rounds(n)))
  {
    hide GateStep, ReviewStep, RoundOutcomes, Passes, Within, FailedCount, TextOf, GatesLog, CombinedStatus, Checks, AllNamed,
      LocalsBefore, FailuresBefore, CostBefore, EffectiveMaxPatchRounds, Exceeds;
    var r, v := rounds(n), LocalsBefore(t, dryRun, rounds, n);
    BeforeNext(t, dryRun, rounds, n);
    CapIs(t);
    var failures, cost := FailuresBefore(t, dryRun, rounds, n + 1), CostBefore(dryRun, rounds, n + 1);
    GatesStop(t, dryRun, n, r, v, failures, cost);
    if Gated(t, dryRun, rounds, n) {
      GatesRun(t, dryRun, n, r, v, failures, cost);
      ReviewIs(h, t, dryRun, n, r, GateStep(t, dryRun, n, r, v).locals);
    }
  }

  lemma OneEnd(h: Heuristics, t: Task, dryRun: bool, rounds: nat -> Round, n: nat, a: LoopEnd, b: LoopEnd)
    requires EndOfRound(h, t, dryRun, rounds, n, a) && EndOfRound(h, t, dryRun, rounds, n, b)
    ensures a == b
  {
    hide TextOf, Within, Passes, AllNamed, RoundOutcomes, CombinedStatus, EffectiveMaxPatchRounds;
  }

  /**
   * The loop ends in its first round that does not ask for another, in the one way that round's
   * answers call for: money and failures are what the rounds before it cost, the log is one entry
   * per stage of every round in order, and the ledger has one check per outcome.
   */
  lemma LoopEndsIff(h: Heuristics, t: Task, dryRun: bool, rounds: nat -> Round, n: nat, end: LoopEnd)
    requires EndsIn(h, t, dryRun, rounds, n)
    ensures var g := Loop(h, t, dryRun, rounds);
      && (g.end == Some(end) <==> EndOfRound(h, t, dryRun, rounds, n, end))
      && LogBefore(t, dryRun, rounds, n) <= g.ops && LogOfLast(h, t, dryRun, rounds, n, g.ops[|LogBefore(t, dryRun, rounds, n)|..])
      && g.checks == ChecksBefore(t, dryRun, rounds, if Gated(t, dryRun, rounds, n) then n + 1 else n)
      && (g.end.Some? && g.end.value.Reviewed? ==> g.locals.outcomes == RoundOutcomes(t, dryRun, rounds(n)))
  {
    hide RoundStep, LocalsBefore, LogBefore, Loop, LogOfLast, EndOfRound, Checks, RoundOutcomes, EndsIn, Gated;
    LastRound(h, t, dryRun, rounds, n);
    LoopIs(h, t, dryRun, rounds, n);
    var last := RoundStep(h, t, dryRun, n, rounds(n), LocalsBefore(t, dryRun, rounds, n));
    if EndOfRound(h, t, dryRun, rounds, n, end) {
      OneEnd(h, t, dryRun, rounds, n, end, last.end.value);
    }
  }
}
