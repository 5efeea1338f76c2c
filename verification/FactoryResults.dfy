/** What an invocation reports: stored and returned status, triage, and its audited run record. */
module FactoryResults {
  import opened Numeric
  import opened Reviews
  import opened Tasks
  import opened Stores
  import opened Pipeline
  import opened FactorySafety
  import opened FactoryHistory
  import E = RunEvidence
  import L = ImplementLoop

  // ---- stored and returned status

  /** The stored status is the returned one exactly when that is not "rejected", which is stored as blocked or failed. */
  lemma StoredStatusIff(h: Heuristics, s: State, t: Task, dryRun: bool, resume: Option<Checkpoint>, env: Env, status: Status)
    requires Inv(NamingOnly, s) && Run(h, t, dryRun, resume, env).halt == Some(Returned(status))
    ensures var row := Play(h, s, Run(h, t, dryRun, resume, env).ops).row;
      && row.Some? && (row.value.status == status <==> status != Rejected)
      && (status == Rejected ==> row.value.status in {Blocked, FailedStatus})
  {
    hide Run, Play, Safe;
    RunSafe(h, NamingOnly, s, t, dryRun, resume, env);
  }

  // ---- triage

  const IDLE: State := State(Some(Row(Status.Running, None, "")), false, Unvetted, false)

  /** A loop that falls out holds no failed must-pass gate, whatever its cap. */
  lemma FallenOutOk(h: Heuristics, t: Task, dryRun: bool, rounds: nat -> L.Round)
    ensures var g := L.Loop(h, t, dryRun, rounds);
      g.end.Some? && (g.end.value.Reviewed? ==> MustPassOk(g.locals.outcomes))
  {
    hide L.LoopFrom, Play, Safe;
    if EffectiveMaxPatchRounds(t) >= 0 {
      LoopSafe(h, VettedCommits, IDLE.(dryRun := dryRun), t, dryRun, rounds, 0, L.START);
    } else {
      L.FallThrough(h, t, dryRun, rounds, 0, L.START);
    }
  }

  lemma VettedOutcomesOk(h: Heuristics, t: Task, dryRun: bool, resume: Option<Checkpoint>, env: Env)
    requires Vetting(h, t, dryRun, resume, env).halt.None?
    ensures MustPassOk(LastOutcomes(h, t, dryRun, resume, env))
  {
    hide L.Loop, OpenPart, PlanPart, PrecommitPart;
    FallenOutOk(h, t, dryRun, env.rounds);
  }

  /** The terminal HOLD, which would keep a done branch from being pushed, is never reached. */
  lemma DoneIsNeverHeld(h: Heuristics, t: Task, dryRun: bool, resume: Option<Checkpoint>, env: Env)
    requires Vetting(h, t, dryRun, resume, env).halt.None?
    ensures FinalTriage(h, t, dryRun, resume, env) != Hold
    ensures Append(StoreEvent.TriageHold) !in ShipPart(t, dryRun, resume, FinalTriage(h, t, dryRun, resume, env)).ops
  {
    hide Vetting, LastOutcomes, LastReview, Ambiguous, MustPassOk;
    VettedOutcomesOk(h, t, dryRun, resume, env);
  }

  lemma EmptyNotAmbiguous(h: Heuristics)
    ensures !Ambiguous(h, "")
  {
  }

  lemma NothingFails()
    ensures MustPassOk([]) && !AdvisoryFailure([])
  {
  }

  /**
   * Pausing at pre_pr forgets what triage looks at: the resumed invocation triages like the
   * uninterrupted one exactly when the latter had nothing to investigate.
   */
  lemma TriageSurvivesPauseIff(h: Heuristics, t: Task, dryRun: bool, env: Env, later: Env)
    requires Vetting(h, t, dryRun, None, env).halt.None? && !h.caveat("")
    ensures var review, outcomes := LastReview(h, t, dryRun, None, env), LastOutcomes(h, t, dryRun, None, env);
      FinalTriage(h, t, dryRun, Some(PrePr), later) == FinalTriage(h, t, dryRun, None, env) <==>
        && !(t.policy.investigateAdvisory && AdvisoryFailure(outcomes))
        && !(t.policy.investigateCaveat && h.caveat(review))
        && !Ambiguous(h, review)
  {
    VettedOutcomesOk(h, t, dryRun, None, env);
    hide Vetting, L.Loop, Ambiguous, MustPassOk, AdvisoryFailure;
    assert LastOutcomes(h, t, dryRun, Some(PrePr), later) == [] && LastReview(h, t, dryRun, Some(PrePr), later) == "";
    assert MustPassOk([]) && !AdvisoryFailure([]) by { NothingFails(); }
    EmptyNotAmbiguous(h);
    hide LastReview, LastOutcomes;
  }

  // ---- the run record

  lemma {:induction false} ChecksValid(outcomes: seq<Outcome>)
    ensures E.RunBody(L.Checks(outcomes))
  {
    if outcomes != [] {
      ChecksValid(outcomes[1..]);
    }
  }

  lemma BodyConcat(a: seq<E.Event>, b: seq<E.Event>)
    ensures E.RunBody(a + b) <==> E.RunBody(a) && E.RunBody(b)
    ensures E.HasCheck(a + b) <==> E.HasCheck(a) || E.HasCheck(b)
  {
    assert forall i :: 0 <= i < |a| ==> (a + b)[i] == a[i];
    assert forall i :: 0 <= i < |b| ==> (a + b)[|a| + i] == b[i];
    assert forall i :: |a| <= i < |a + b| ==> (a + b)[i] == b[i - |a|];
  }

  lemma NoChecks()
    ensures L.Checks([]) == []
  {
  }

  lemma RoundBody(h: Heuristics, t: Task, dryRun: bool, k: nat, r: L.Round, v: L.Locals)
    ensures E.RunBody(L.RoundStep(h, t, dryRun, k, r, v).checks)
  {
    hide MustPassOk, ReviewText, CombinedStatus, L.RoundOutcomes, L.AllNamed, L.Checks, E.RunBody;
    var gates := L.GateStep(t, dryRun, k, r, v);
    ChecksValid(L.RoundOutcomes(t, dryRun, r));
    ChecksValid([]);
    assert L.Checks([]) == [] by { NoChecks(); }
    assert L.ReviewStep(h, t, dryRun, k, r, gates.locals).checks == [];
    assert gates.checks + [] == gates.checks;
  }

  lemma {:induction false} LoopBody(h: Heuristics, t: Task, dryRun: bool, rounds: nat -> L.Round, k: nat, v: L.Locals)
    ensures E.RunBody(L.LoopFrom(h, t, dryRun, rounds, k, v).checks)
    decreases EffectiveMaxPatchRounds(t) + 1 - k
  {
    hide L.RoundStep, E.RunBody, L.LoopFrom, EffectiveMaxPatchRounds;
    if k > EffectiveMaxPatchRounds(t) {
      L.FallThrough(h, t, dryRun, rounds, k, v);
      ChecksValid([]);
      NoChecks();
    } else {
      L.Unroll(h, t, dryRun, rounds, k, v);
      var here := L.RoundStep(h, t, dryRun, k, rounds(k), v);
      RoundBody(h, t, dryRun, k, rounds(k), v);
      LoopBody(h, t, dryRun, rounds, k + 1, here.locals);
      BodyConcat(here.checks, L.LoopFrom(h, t, dryRun, rounds, k + 1, here.locals).checks);
    }
  }

  lemma PlainEvents(n: seq<E.Event>)
    requires forall i :: 0 <= i < |n| ==> n[i].OtherEvent? || n[i].PipelineDone?
    ensures E.RunBody(n) && !E.HasCheck(n)
  {
  }

  lemma ThenBody(a: Part, b: Part)
    requires E.RunBody(a.body) && E.RunBody(b.body)
    ensures E.RunBody(Then(a, b).body)
    ensures E.HasCheck(Then(a, b).body) <==> E.HasCheck(a.body) || (a.halt.None? && E.HasCheck(b.body))
  {
    hide E.RunBody, E.HasCheck;
    BodyConcat(a.body, b.body);
  }

  lemma LoopPartBody(h: Heuristics, t: Task, dryRun: bool, resume: Option<Checkpoint>, env: Env)
    ensures var p := LoopPart(h, t, dryRun, resume, env);
      && E.RunBody(p.body)
      && (E.HasCheck(p.body) <==> RunsLoop(resume) && E.HasCheck(L.Loop(h, t, dryRun, env.rounds).checks))
  {
    hide E.RunBody, E.HasCheck, L.LoopFrom;
    PlainEvents([]);
    if RunsLoop(resume) {
      var g := L.Loop(h, t, dryRun, env.rounds);
      LoopBody(h, t, dryRun, env.rounds, 0, L.START);
      PlainEvents([E.OtherEvent]);
      BodyConcat(g.checks, [E.OtherEvent]);
    }
  }

  lemma OnlyShipIsDone(h: Heuristics, t: Task, dryRun: bool, resume: Option<Checkpoint>, env: Env)
    ensures Vetting(h, t, dryRun, resume, env).halt != Some(Returned(Done))
  {
    hide L.Loop, BudgetLimitHit;
  }

  /** The ledger body of any invocation is schema-valid; a done one carries a check exactly when its loop emitted one. */
  lemma LedgerBody(h: Heuristics, t: Task, dryRun: bool, resume: Option<Checkpoint>, env: Env)
    ensures var p := Run(h, t, dryRun, resume, env);
      && E.RunBody(p.body)
      && (p.halt == Some(Returned(Done)) ==>
            Vetting(h, t, dryRun, resume, env).halt.None?
            && (E.HasCheck(p.body) <==> RunsLoop(resume) && E.HasCheck(L.Loop(h, t, dryRun, env.rounds).checks)))
  {
    hide E.RunBody, E.HasCheck, L.Loop, L.Checks, LoopPart, FinalTriage, BudgetLimitHit, Findings;
    var open, plan := OpenPart(t, dryRun, resume, env), PlanPart(t, dryRun, resume, env);
    var loop, precommit := LoopPart(h, t, dryRun, resume, env), PrecommitPart(resume, env);
    var ship := ShipPart(t, dryRun, resume, FinalTriage(h, t, dryRun, resume, env));
    PlainEvents([]);
    OpenIsSilent(t, dryRun, resume, env);
    PlainEvents(plan.body);
    LoopPartBody(h, t, dryRun, resume, env);
    ChecksValid(Findings(env.findings));
    assert E.RunBody(precommit.body) && (precommit.halt.None? ==> !E.HasCheck(precommit.body));
    PlainEvents(ship.body);
    OnlyShipIsDone(h, t, dryRun, resume, env);
    hide OpenPart, PlanPart, PrecommitPart, ShipPart;
    ThenBody(open, plan);
    ThenBody(Then(open, plan), loop);
    ThenBody(Then(Then(open, plan), loop), precommit);
    ThenBody(Vetting(h, t, dryRun, resume, env), ship);
  }

  /**
   * Every done invocation passes the validator's four cross-checks; it passes validation overall
   * exactly when its sandbox reference was derivable and its own loop emitted a gate check.
   */
  lemma DoneRunConformsIff(h: Heuristics, t: Task, dryRun: bool, resume: Option<Checkpoint>, env: Env)
    requires Run(h, t, dryRun, resume, env).halt == Some(Returned(Done))
    ensures var body := Run(h, t, dryRun, resume, env).body;
      var run, events := RecordOf(t, env, Done, body), LedgerOf(t, env, Done, body);
      && (forall v :: E.Violated(v, run, events) ==> v == E.Missing(E.SandboxRef) || v == E.Missing(E.GateResults))
      && (E.Conforms(run, events) <==> env.headKnown && RunsLoop(resume) && E.HasCheck(L.Loop(h, t, dryRun, env.rounds).checks))
  {
    hide Run, E.RunBody, E.HasCheck, E.Violated, E.FinalRecord, L.Loop, E.Populated;
    var body := Run(h, t, dryRun, resume, env).body;
    LedgerBody(h, t, dryRun, resume, env);
    E.EmittedRunConformsIff(E.RunDone, t.goal, WORKERS, GateNames(t.gates), env.headKnown, body);
  }

  lemma OutcomesExist(t: Task, dryRun: bool, r: L.Round)
    requires t.gates != []
    ensures L.RoundOutcomes(t, dryRun, r) != []
  {
  }

  lemma FirstCheck(outcomes: seq<Outcome>)
    requires outcomes != [] && L.AllNamed(outcomes)
    ensures E.HasCheck(L.Checks(outcomes))
  {
    assert L.Checks(outcomes)[0].GateCheck?;
  }

  lemma CleanRoundEmits(h: Heuristics, t: Task, dryRun: bool, k: nat, r: L.Round, v: L.Locals)
    requires t.gates != []
    ensures var g := L.RoundStep(h, t, dryRun, k, r, v);
      && (g.end.Some? && g.end.value.Reviewed? ==> E.HasCheck(g.checks))
      && (g.end.None? ==> k < EffectiveMaxPatchRounds(t))
  {
    hide MustPassOk, ReviewText, CombinedStatus, L.RoundOutcomes, E.HasCheck, BudgetLimitHit, EffectiveMaxPatchRounds, L.Checks;
    var outcomes := L.RoundOutcomes(t, dryRun, r);
    var gates := L.GateStep(t, dryRun, k, r, v);
    OutcomesExist(t, dryRun, r);
    if gates.end.None? {
      FirstCheck(outcomes);
      assert gates.checks + [] == gates.checks;
    }
  }

  /** A loop over a task with gates emits a check before it can end in a CLEAN review. */
  lemma {:induction false} CleanLoopEmits(h: Heuristics, t: Task, dryRun: bool, rounds: nat -> L.Round, k: nat, v: L.Locals)
    requires t.gates != [] && k <= EffectiveMaxPatchRounds(t)
    ensures var g := L.LoopFrom(h, t, dryRun, rounds, k, v);
      g.end.Some? && g.end.value.Reviewed? ==> E.HasCheck(g.checks)
    decreases EffectiveMaxPatchRounds(t) - k
  {
    hide L.RoundStep, E.HasCheck, L.LoopFrom, EffectiveMaxPatchRounds;
    L.Unroll(h, t, dryRun, rounds, k, v);
    var here := L.RoundStep(h, t, dryRun, k, rounds(k), v);
    CleanRoundEmits(h, t, dryRun, k, rounds(k), v);
    if here.end.None? {
      CleanLoopEmits(h, t, dryRun, rounds, k + 1, here.locals);
      BodyConcat(here.checks, L.LoopFrom(h, t, dryRun, rounds, k + 1, here.locals).checks);
    }
  }

  lemma VettedLoopReviewed(h: Heuristics, t: Task, dryRun: bool, resume: Option<Checkpoint>, env: Env)
    requires Vetting(h, t, dryRun, resume, env).halt.None? && RunsLoop(resume)
    ensures var g := L.Loop(h, t, dryRun, env.rounds); g.end.Some? && g.end.value.Reviewed?
  {
    hide L.Loop, OpenPart, PlanPart, PrecommitPart;
    FallenOutOk(h, t, dryRun, env.rounds);
  }

  /** A loop with a negative cap emits nothing. */
  lemma NegativeCapSilent(h: Heuristics, t: Task, dryRun: bool, rounds: nat -> L.Round)
    requires EffectiveMaxPatchRounds(t) < 0
    ensures !E.HasCheck(L.Loop(h, t, dryRun, rounds).checks)
  {
    hide L.LoopFrom;
    L.FallThrough(h, t, dryRun, rounds, 0, L.START);
  }

  /**
   * For a task with gates, a done invocation passes validation exactly when it ran the loop
   * itself, with a non-negative cap, and the sandbox reference was derivable. Every done run
   * resumed from diff_review or pre_pr fails it.
   */
  lemma GatedDoneConformsIff(h: Heuristics, t: Task, dryRun: bool, resume: Option<Checkpoint>, env: Env)
    requires t.gates != [] && Run(h, t, dryRun, resume, env).halt == Some(Returned(Done))
    ensures var body := Run(h, t, dryRun, resume, env).body;
      E.Conforms(RecordOf(t, env, Done, body), LedgerOf(t, env, Done, body)) <==>
        RunsLoop(resume) && EffectiveMaxPatchRounds(t) >= 0 && env.headKnown
  {
    hide Run, RecordOf, LedgerOf, E.Conforms, E.HasCheck, L.LoopFrom, Vetting, EffectiveMaxPatchRounds;
    DoneRunConformsIff(h, t, dryRun, resume, env);
    LedgerBody(h, t, dryRun, resume, env);
    if RunsLoop(resume) {
      VettedLoopReviewed(h, t, dryRun, resume, env);
      if EffectiveMaxPatchRounds(t) >= 0 {
        CleanLoopEmits(h, t, dryRun, env.rounds, 0, L.START);
      } else {
        NegativeCapSilent(h, t, dryRun, env.rounds);
      }
    }
  }

  /** The round in which the loop ends. */
  function LastRound(h: Heuristics, t: Task, dryRun: bool, rounds: nat -> L.Round, k: nat, v: L.Locals): nat
    decreases EffectiveMaxPatchRounds(t) + 1 - k
  {
    if k > EffectiveMaxPatchRounds(t) then k
    else
      var here := L.RoundStep(h, t, dryRun, k, rounds(k), v);
      if here.end.Some? then k else LastRound(h, t, dryRun, rounds, k + 1, here.locals)
  }

  lemma LastRoundStep(h: Heuristics, t: Task, dryRun: bool, rounds: nat -> L.Round, k: nat, v: L.Locals)
    requires k <= EffectiveMaxPatchRounds(t)
    ensures var here := L.RoundStep(h, t, dryRun, k, rounds(k), v);
      LastRound(h, t, dryRun, rounds, k, v) == if here.end.Some? then k else LastRound(h, t, dryRun, rounds, k + 1, here.locals)
  {
    hide L.RoundStep;
  }

  lemma {:induction false} LastRoundAtLeast(h: Heuristics, t: Task, dryRun: bool, rounds: nat -> L.Round, k: nat, v: L.Locals)
    ensures LastRound(h, t, dryRun, rounds, k, v) >= k
    decreases EffectiveMaxPatchRounds(t) + 1 - k
  {
    hide L.RoundStep;
    if k <= EffectiveMaxPatchRounds(t) {
      LastRoundAtLeast(h, t, dryRun, rounds, k + 1, L.RoundStep(h, t, dryRun, k, rounds(k), v).locals);
    }
  }

  lemma GatelessOutcomes(t: Task, dryRun: bool, r: L.Round)
    requires t.gates == []
    ensures L.RoundOutcomes(t, dryRun, r) != [] <==> !dryRun && (t.contract != [] || !r.materialDiff)
    ensures !dryRun && !r.materialDiff ==> !MustPassOk(L.RoundOutcomes(t, dryRun, r))
  {
    if !dryRun && !r.materialDiff {
      assert !L.RoundOutcomes(t, dryRun, r)[0].ok;
    }
  }

  /** Without gates, a round that does not stop the run emits a check exactly for a contract or a missing diff. */
  lemma GatelessRoundEmitsIff(h: Heuristics, t: Task, dryRun: bool, k: nat, r: L.Round, v: L.Locals)
    requires t.gates == []
    ensures var g := L.RoundStep(h, t, dryRun, k, r, v);
      && (g.end.None? || g.end.value.Reviewed? ==> (E.HasCheck(g.checks) <==> !dryRun && (t.contract != [] || !r.materialDiff)))
      && (g.end.Some? && g.end.value.Reviewed? && !dryRun ==> r.materialDiff)
      && (g.end.None? ==> k < EffectiveMaxPatchRounds(t))
  {
    hide ReviewText, CombinedStatus, L.RoundOutcomes, E.HasCheck, BudgetLimitHit, EffectiveMaxPatchRounds, L.Checks, MustPassOk;
    var outcomes := L.RoundOutcomes(t, dryRun, r);
    var gates := L.GateStep(t, dryRun, k, r, v);
    GatelessOutcomes(t, dryRun, r);
    assert gates.checks + [] == gates.checks;
    if gates.end.None? {
      if outcomes != [] {
        FirstCheck(outcomes);
      } else {
        NoChecks();
        assert !E.HasCheck([]) by { PlainEvents([]); }
      }
    }
  }

  /** Some round from k on, before the last, came back without a material diff. */
  ghost predicate MissedDiff(rounds: nat -> L.Round, k: nat, last: nat) {
    exists i: nat :: k <= i < last && !rounds(i).materialDiff
  }

  lemma MissedStep(rounds: nat -> L.Round, k: nat, last: nat)
    requires k < last
    ensures MissedDiff(rounds, k, last) <==> !rounds(k).materialDiff || MissedDiff(rounds, k + 1, last)
  {
    if i: nat :| k <= i < last && !rounds(i).materialDiff {
      assert i == k || k + 1 <= i;
    }
  }

  lemma NothingMissed(rounds: nat -> L.Round, k: nat)
    ensures !MissedDiff(rounds, k, k)
  {
  }

  lemma {:induction false} GatelessLoopEmitsIff(h: Heuristics, t: Task, dryRun: bool, rounds: nat -> L.Round, k: nat, v: L.Locals)
    requires t.gates == [] && k <= EffectiveMaxPatchRounds(t)
    requires var g := L.LoopFrom(h, t, dryRun, rounds, k, v); g.end.Some? && g.end.value.Reviewed?
    ensures E.HasCheck(L.LoopFrom(h, t, dryRun, rounds, k, v).checks) <==>
      !dryRun && (t.contract != [] || MissedDiff(rounds, k, LastRound(h, t, dryRun, rounds, k, v)))
    decreases EffectiveMaxPatchRounds(t) - k
  {
    hide L.RoundStep, E.HasCheck, L.LoopFrom, EffectiveMaxPatchRounds, LastRound, MissedDiff;
    L.Unroll(h, t, dryRun, rounds, k, v);
    LastRoundStep(h, t, dryRun, rounds, k, v);
    var here := L.RoundStep(h, t, dryRun, k, rounds(k), v);
    GatelessRoundEmitsIff(h, t, dryRun, k, rounds(k), v);
    if here.end.None? {
      GatelessLoopEmitsIff(h, t, dryRun, rounds, k + 1, here.locals);
      BodyConcat(here.checks, L.LoopFrom(h, t, dryRun, rounds, k + 1, here.locals).checks);
      LastRoundAtLeast(h, t, dryRun, rounds, k + 1, here.locals);
      MissedStep(rounds, k, LastRound(h, t, dryRun, rounds, k, v));
    } else {
      assert !MissedDiff(rounds, k, k) by { NothingMissed(rounds, k); }
    }
  }

  /**
   * For a task without gates, a done invocation passes validation exactly when it ran the loop
   * itself for real, with a non-negative cap and a derivable sandbox reference, and the task
   * declares a contract or some earlier round came back without a material diff.
   */
  lemma GatelessDoneConformsIff(h: Heuristics, t: Task, dryRun: bool, resume: Option<Checkpoint>, env: Env)
    requires t.gates == [] && Run(h, t, dryRun, resume, env).halt == Some(Returned(Done))
    ensures var body := Run(h, t, dryRun, resume, env).body;
      E.Conforms(RecordOf(t, env, Done, body), LedgerOf(t, env, Done, body)) <==>
        && RunsLoop(resume) && EffectiveMaxPatchRounds(t) >= 0 && env.headKnown && !dryRun
        && (t.contract != [] || MissedDiff(env.rounds, 0, LastRound(h, t, dryRun, env.rounds, 0, L.START)))
  {
    hide Run, RecordOf, LedgerOf, E.Conforms, E.HasCheck, L.LoopFrom, Vetting, EffectiveMaxPatchRounds, LastRound, MissedDiff;
    DoneRunConformsIff(h, t, dryRun, resume, env);
    LedgerBody(h, t, dryRun, resume, env);
    if RunsLoop(resume) {
      VettedLoopReviewed(h, t, dryRun, resume, env);
      if EffectiveMaxPatchRounds(t) >= 0 {
        GatelessLoopEmitsIff(h, t, dryRun, env.rounds, 0, L.START);
      } else {
        NegativeCapSilent(h, t, dryRun, env.rounds);
      }
    }
  }

  // ---- an input on which the pause changes the triage

  /** One advisory gate, reviews off, a pause before the pull request. */
  function AdvisoryTask(): Task {
    Task("", [Gate("lint", false)], [], Panel([], []), 0, Budget(None, None, None, None), {PrePr}, true, Policy(true, true, true))
  }

  /** Everything goes well except that gate. */
  function LintFails(): L.Round {
    GoodRound().(exits := i => false)
  }

  function AdvisoryEnv(): Env {
    GoodEnv().(rounds := k => LintFails())
  }

  lemma AdvisoryRound(h: Heuristics)
    ensures var g := L.RoundStep(h, AdvisoryTask(), false, 0, LintFails(), L.START);
      g.end == Some(L.Reviewed(REVIEW_DISABLED)) && g.locals.outcomes == [Outcome("lint", false, false)]
  {
    hide CombinedStatus, L.Checks;
    var outcomes := L.RoundOutcomes(AdvisoryTask(), false, LintFails());
    assert outcomes == [Outcome("lint", false, false)];
    DisabledReviewIsClean(h);
  }

  lemma AdvisoryLoop(h: Heuristics)
    ensures var g := L.Loop(h, AdvisoryTask(), false, AdvisoryEnv().rounds);
      g.end == Some(L.Reviewed(REVIEW_DISABLED)) && g.locals.outcomes == [Outcome("lint", false, false)]
  {
    hide L.RoundStep, L.LoopFrom;
    AdvisoryRound(h);
    L.Unroll(h, AdvisoryTask(), false, AdvisoryEnv().rounds, 0, L.START);
  }

  lemma AdvisoryVetted(h: Heuristics)
    ensures Vetting(h, AdvisoryTask(), false, None, AdvisoryEnv()).halt.None?
  {
    hide L.Loop;
    AdvisoryLoop(h);
    GoodBudget(AdvisoryTask());
  }

  /** The uninterrupted run is to be investigated; paused at pre_pr and resumed, the same work passes. */
  lemma PauseLosesInvestigate(h: Heuristics)
    requires !h.caveat("")
    ensures FinalTriage(h, AdvisoryTask(), false, None, AdvisoryEnv()) == Investigate
    ensures FinalTriage(h, AdvisoryTask(), false, Some(PrePr), GoodEnv()) == Pass
  {
    hide L.Loop, Vetting, Ambiguous;
    AdvisoryLoop(h);
    AdvisoryVetted(h);
    EmptyNotAmbiguous(h);
    NothingFails();
    var outcomes := [Outcome("lint", false, false)];
    assert MustPassOk(outcomes) && AdvisoryFailure(outcomes) by { assert !outcomes[0].ok; }
  }
}
