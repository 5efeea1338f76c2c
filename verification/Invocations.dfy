/** How one invocation ends and what it logs, from its inputs and the end of its loop. */
module Invocations {
  import opened Numeric
  import opened Reviews
  import opened Tasks
  import opened Stores
  import opened Pipeline
  import opened FactorySafety
  import opened FactoryHistory
  import opened Approvals
  import L = ImplementLoop
  import E = RunEvidence

  // ---- how far an invocation gets

  /** The worktree stands and the budget is not spent before planning. */
  ghost predicate Opens(t: Task, dryRun: bool, env: Env) {
    (dryRun || env.worktreeOk) && Within(t, env.elapsedPlan, 0, 0, 0.0)
  }

  /** A plan is made, or found, when one is needed. */
  ghost predicate PlanFound(dryRun: bool, resume: Option<Checkpoint>, env: Env) {
    && (resume == None ==> dryRun || env.planOk)
    && (resume == Some(PlanReview) ==> env.storedPlan)
  }

  ghost predicate Planned(t: Task, dryRun: bool, resume: Option<Checkpoint>, env: Env) {
    Opens(t, dryRun, env) && PlanFound(dryRun, resume, env) && !(resume == None && PlanReview in t.checkpoints)
  }

  /** A run from the start, or from its plan, goes through the implement loop. */
  ghost predicate Implements(resume: Option<Checkpoint>) {
    resume == None || resume == Some(PlanReview)
  }

  function LoopEndOf(h: Heuristics, t: Task, dryRun: bool, env: Env): Option<L.LoopEnd> {
    L.Loop(h, t, dryRun, env.rounds).end
  }

  ghost predicate LoopEndsAs(h: Heuristics, t: Task, dryRun: bool, resume: Option<Checkpoint>, env: Env, end: L.LoopEnd) {
    Planned(t, dryRun, resume, env) && Implements(resume) && LoopEndOf(h, t, dryRun, env) == Some(end)
  }

  ghost predicate LoopReviewed(h: Heuristics, t: Task, dryRun: bool, resume: Option<Checkpoint>, env: Env) {
    && Planned(t, dryRun, resume, env) && Implements(resume)
    && LoopEndOf(h, t, dryRun, env).Some? && LoopEndOf(h, t, dryRun, env).value.Reviewed?
  }

  /** Work is there to commit: reviewed in this run without a pause, or resumed from later on. */
  ghost predicate Built(h: Heuristics, t: Task, dryRun: bool, resume: Option<Checkpoint>, env: Env) {
    if Implements(resume) then LoopReviewed(h, t, dryRun, resume, env) && DiffReview !in t.checkpoints
    else Planned(t, dryRun, resume, env)
  }

  /** It pauses at c. */
  ghost predicate Pauses(h: Heuristics, t: Task, dryRun: bool, resume: Option<Checkpoint>, env: Env, c: Checkpoint) {
    c in t.checkpoints &&
    match c
    case PlanReview => resume == None && Opens(t, dryRun, env) && PlanFound(dryRun, resume, env)
    case DiffReview => LoopReviewed(h, t, dryRun, resume, env)
    case PrePr => t.prOpen && resume != Some(PrePr) && Built(h, t, dryRun, resume, env) && env.findings == []
  }

  /** The end of an invocation and when it comes to that. */
  ghost predicate EndsAs(h: Heuristics, t: Task, dryRun: bool, resume: Option<Checkpoint>, env: Env, end: End) {
    match end
    case NoEvidence => !dryRun && !env.worktreeOk
    case Raised => LoopEndsAs(h, t, dryRun, resume, env, L.Crashed)
    case Returned(Blocked) =>
      || ((dryRun || env.worktreeOk) && !Within(t, env.elapsedPlan, 0, 0, 0.0))
      || LoopEndsAs(h, t, dryRun, resume, env, L.BudgetEnd) || LoopEndsAs(h, t, dryRun, resume, env, L.BlockedEnd)
      || (Built(h, t, dryRun, resume, env) && env.findings != [])
    case Returned(FailedStatus) => Opens(t, dryRun, env) && !PlanFound(dryRun, resume, env)
    case Returned(Rejected) => LoopEndsAs(h, t, dryRun, resume, env, L.RejectedEnd)
    case Returned(AwaitingApproval) => exists c :: Pauses(h, t, dryRun, resume, env, c)
    case Returned(Done) => Built(h, t, dryRun, resume, env) && env.findings == [] && !Pauses(h, t, dryRun, resume, env, PrePr)
    case Returned(_) => false
  }

  lemma OpenIs(t: Task, dryRun: bool, resume: Option<Checkpoint>, env: Env)
    ensures OpenPart(t, dryRun, resume, env).halt ==
      if !dryRun && !env.worktreeOk then Some(NoEvidence)
      else if !Opens(t, dryRun, env) then Some(Returned(Blocked)) else None
  {
    hide BudgetLimitHit, Within;
    LimitHitIff(t, env.elapsedPlan, 0, 0, 0.0);
  }

  lemma ResumeCases(resume: Option<Checkpoint>)
    ensures resume in {None, Some(PlanReview), Some(DiffReview), Some(PrePr)}
  {
    assert resume.Some? ==> resume.value.PlanReview? || resume.value.DiffReview? || resume.value.PrePr?;
  }

  lemma HaltOfThen(a: Part, b: Part)
    ensures Then(a, b).halt == if a.halt.Some? then a.halt else b.halt
  {
  }

  lemma RunHalts(h: Heuristics, t: Task, dryRun: bool, resume: Option<Checkpoint>, env: Env)
    ensures var open, plan := OpenPart(t, dryRun, resume, env), PlanPart(t, dryRun, resume, env);
      var loop, precommit := LoopPart(h, t, dryRun, resume, env), PrecommitPart(resume, env);
      Run(h, t, dryRun, resume, env).halt ==
        if open.halt.Some? then open.halt else if plan.halt.Some? then plan.halt else if loop.halt.Some? then loop.halt
        else if precommit.halt.Some? then precommit.halt
        else ShipPart(t, dryRun, resume, FinalTriage(h, t, dryRun, resume, env)).halt
  {
    hide OpenPart, PlanPart, LoopPart, PrecommitPart, ShipPart, FinalTriage;
  }

  lemma {:induction false} LoopAlwaysEnds(h: Heuristics, t: Task, dryRun: bool, rounds: nat -> L.Round, k: nat, v: L.Locals)
    ensures L.LoopFrom(h, t, dryRun, rounds, k, v).end.Some?
    decreases EffectiveMaxPatchRounds(t) + 1 - k
  {
    hide L.RoundStep, EffectiveMaxPatchRounds, L.LoopFrom;
    if k > EffectiveMaxPatchRounds(t) {
      L.FallThrough(h, t, dryRun, rounds, k, v);
    } else {
      L.Unroll(h, t, dryRun, rounds, k, v);
      LoopAlwaysEnds(h, t, dryRun, rounds, k + 1, L.RoundStep(h, t, dryRun, k, rounds(k), v).locals);
    }
  }

  lemma PausesSomewhere(h: Heuristics, t: Task, dryRun: bool, resume: Option<Checkpoint>, env: Env)
    ensures (exists c :: Pauses(h, t, dryRun, resume, env, c)) <==>
      || Pauses(h, t, dryRun, resume, env, PlanReview)
      || Pauses(h, t, dryRun, resume, env, DiffReview)
      || Pauses(h, t, dryRun, resume, env, PrePr)
  {
    hide Pauses;
    if c :| Pauses(h, t, dryRun, resume, env, c) {
      assert c.PlanReview? || c.DiffReview? || c.PrePr?;
    }
  }

  /** Every invocation ends, and in exactly the way its inputs call for. */
  lemma RunEndsIff(h: Heuristics, t: Task, dryRun: bool, resume: Option<Checkpoint>, env: Env, end: End)
    ensures Run(h, t, dryRun, resume, env).halt.Some?
    ensures Run(h, t, dryRun, resume, env).halt == Some(end) <==> EndsAs(h, t, dryRun, resume, env, end)
  {
    hide Run, OpenPart, Within, L.LoopFrom, FinalTriage, Findings, L.Checks;
    RunHalts(h, t, dryRun, resume, env);
    OpenIs(t, dryRun, resume, env);
    ResumeCases(resume);
    LoopAlwaysEnds(h, t, dryRun, env.rounds, 0, L.START);
    PausesSomewhere(h, t, dryRun, resume, env);
  }

  // ---- what an invocation logs

  predicate Logs(ops: seq<Op>, e: StoreEvent) {
    Append(e) in ops
  }

  lemma ConcatLogs(a: seq<Op>, b: seq<Op>, e: StoreEvent)
    ensures Logs(a + b, e) <==> Logs(a, e) || Logs(b, e)
  {
  }

  lemma ThenLogs(a: Part, b: Part, e: StoreEvent)
    ensures Logs(Then(a, b).ops, e) <==> Logs(a.ops, e) || (a.halt.None? && Logs(b.ops, e))
  {
  }

  /** Logged by the loop only. */
  predicate LoopEvent(e: StoreEvent) {
    e.ImplementDone? || e.ImplementFailed? || e.GatesDone? || e.GatesFailed? || e.BudgetExhausted?
  }

  lemma LoopLogsOnly(h: Heuristics, t: Task, dryRun: bool, env: Env, e: StoreEvent)
    requires !LoopEvent(e)
    ensures !Logs(L.Loop(h, t, dryRun, env.rounds).ops, e)
  {
    hide L.LoopFrom;
    L.LoopStarts(h, t, dryRun, env.rounds);
    LoopOps(h, t, dryRun, env.rounds, 0, L.START);
  }

  /** What each stage logs, of what the loop does not. */
  predicate OpenLogs(t: Task, dryRun: bool, resume: Option<Checkpoint>, env: Env, e: StoreEvent) {
    match e
    case PipelineStart(d, r) => d == dryRun && r == resume
    case WorktreeError => !dryRun && !env.worktreeOk
    case WorktreeSkipped => dryRun
    case WorktreeReady => !dryRun && env.worktreeOk
    case Stop => OpenPart(t, dryRun, resume, env).halt.Some?
    case _ => false
  }

  lemma OpenLogsIff(t: Task, dryRun: bool, resume: Option<Checkpoint>, env: Env, e: StoreEvent)
    ensures Logs(OpenPart(t, dryRun, resume, env).ops, e) <==> OpenLogs(t, dryRun, resume, env, e)
  {
    hide BudgetLimitHit;
  }

  predicate PlanLogs(t: Task, dryRun: bool, resume: Option<Checkpoint>, env: Env, e: StoreEvent) {
    match e
    case PlanDone => resume == None && (dryRun || env.planOk)
    case PlanFailed => resume == None && !dryRun && !env.planOk
    case CheckpointResumed(c) => c == PlanReview && resume == Some(PlanReview) && env.storedPlan
    case CheckpointPaused(c) => c == PlanReview && resume == None && (dryRun || env.planOk) && PlanReview in t.checkpoints
    case Stop => PlanPart(t, dryRun, resume, env).halt.Some?
    case _ => false
  }

  lemma PlanLogsIff(t: Task, dryRun: bool, resume: Option<Checkpoint>, env: Env, e: StoreEvent)
    ensures Logs(PlanPart(t, dryRun, resume, env).ops, e) <==> PlanLogs(t, dryRun, resume, env, e)
  {
    ResumeCases(resume);
  }

  ghost predicate LoopStageLogs(h: Heuristics, t: Task, dryRun: bool, resume: Option<Checkpoint>, env: Env, e: StoreEvent) {
    var end := LoopEndOf(h, t, dryRun, env);
    Implements(resume) && end.Some? &&
    match e
    case CheckpointPaused(c) => c == DiffReview && end.value.Reviewed? && DiffReview in t.checkpoints
    case Stop => if end.value.Reviewed? then DiffReview in t.checkpoints else !end.value.Crashed?
    case _ => false
  }

  lemma LoopStageLogsIff(h: Heuristics, t: Task, dryRun: bool, resume: Option<Checkpoint>, env: Env, e: StoreEvent)
    requires !LoopEvent(e)
    ensures Logs(LoopPart(h, t, dryRun, resume, env).ops, e) <==> LoopStageLogs(h, t, dryRun, resume, env, e)
  {
    hide L.LoopFrom, L.Loop;
    var g := L.Loop(h, t, dryRun, env.rounds);
    L.LoopStarts(h, t, dryRun, env.rounds);
    LoopAlwaysEnds(h, t, dryRun, env.rounds, 0, L.START);
    LoopLogsOnly(h, t, dryRun, env, e);
    ConcatLogs(g.ops, [Append(Stop)], e);
    ConcatLogs(g.ops, PauseOps(DiffReview), e);
  }

  predicate PrecommitLogs(resume: Option<Checkpoint>, env: Env, e: StoreEvent) {
    match e
    case CheckpointResumed(c) => c == DiffReview && resume == Some(DiffReview)
    case PrecommitDone(ok) => ok == (env.findings == [])
    case Stop => env.findings != []
    case _ => false
  }

  lemma PrecommitLogsIff(resume: Option<Checkpoint>, env: Env, e: StoreEvent)
    ensures Logs(PrecommitPart(resume, env).ops, e) <==> PrecommitLogs(resume, env, e)
  {
    hide Findings, L.Checks;
  }

  predicate ShipLogs(t: Task, dryRun: bool, resume: Option<Checkpoint>, triage: Triage, e: StoreEvent) {
    var pauses := t.prOpen && PrePr in t.checkpoints && resume != Some(PrePr);
    match e
    case CommitDone(d) => d == dryRun
    case CheckpointPaused(c) => c == PrePr && pauses
    case CheckpointResumed(c) => c == PrePr && resume == Some(PrePr)
    case TriageHold => triage == Hold && !pauses
    case PipelineDone(x) => x == triage && !pauses
    case Stop => true
    case _ => false
  }

  lemma ShipLogsIff(t: Task, dryRun: bool, resume: Option<Checkpoint>, triage: Triage, e: StoreEvent)
    ensures Logs(ShipPart(t, dryRun, resume, triage).ops, e) <==> ShipLogs(t, dryRun, resume, triage, e)
  {
  }

  /** An event of no loop is logged exactly when some stage that is reached logs it. */
  lemma RunLogs(h: Heuristics, t: Task, dryRun: bool, resume: Option<Checkpoint>, env: Env, e: StoreEvent)
    requires !LoopEvent(e)
    ensures Logs(Run(h, t, dryRun, resume, env).ops, e) <==>
      || OpenLogs(t, dryRun, resume, env, e)
      || (OpenPart(t, dryRun, resume, env).halt.None? &&
           (|| PlanLogs(t, dryRun, resume, env, e)
            || (PlanPart(t, dryRun, resume, env).halt.None? &&
                 (|| LoopStageLogs(h, t, dryRun, resume, env, e)
                  || (LoopPart(h, t, dryRun, resume, env).halt.None? &&
                       (|| PrecommitLogs(resume, env, e)
                        || (PrecommitPart(resume, env).halt.None? &&
                             ShipLogs(t, dryRun, resume, FinalTriage(h, t, dryRun, resume, env), e))))))))
  {
    hide Logs, OpenPart, PlanPart, LoopPart, PrecommitPart, ShipPart, FinalTriage,
      OpenLogs, PlanLogs, LoopStageLogs, PrecommitLogs, ShipLogs;
    var open, plan := OpenPart(t, dryRun, resume, env), PlanPart(t, dryRun, resume, env);
    var loop, precommit := LoopPart(h, t, dryRun, resume, env), PrecommitPart(resume, env);
    var triage := FinalTriage(h, t, dryRun, resume, env);
    OpenLogsIff(t, dryRun, resume, env, e);
    PlanLogsIff(t, dryRun, resume, env, e);
    LoopStageLogsIff(h, t, dryRun, resume, env, e);
    PrecommitLogsIff(resume, env, e);
    ShipLogsIff(t, dryRun, resume, triage, e);
    ThenLogs(open, plan, e);
    ThenLogs(Then(open, plan), loop, e);
    ThenLogs(Then(Then(open, plan), loop), precommit, e);
    ThenLogs(Vetting(h, t, dryRun, resume, env), ShipPart(t, dryRun, resume, triage), e);
  }

  /** When an invocation logs what. */
  ghost predicate ShouldLog(h: Heuristics, t: Task, dryRun: bool, resume: Option<Checkpoint>, env: Env, e: StoreEvent) {
    match e
    case PipelineStart(d, r) => d == dryRun && r == resume
    case WorktreeSkipped => dryRun
    case WorktreeReady => !dryRun && env.worktreeOk
    case WorktreeError => !dryRun && !env.worktreeOk
    case PlanDone => resume == None && Opens(t, dryRun, env) && PlanFound(dryRun, resume, env)
    case PlanFailed => resume == None && Opens(t, dryRun, env) && !PlanFound(dryRun, resume, env)
    case CheckpointPaused(c) => Pauses(h, t, dryRun, resume, env, c)
    case CheckpointResumed(PlanReview) => resume == Some(PlanReview) && Planned(t, dryRun, resume, env)
    case CheckpointResumed(DiffReview) => resume == Some(DiffReview) && Planned(t, dryRun, resume, env)
    case CheckpointResumed(PrePr) => resume == Some(PrePr) && Built(h, t, dryRun, resume, env) && env.findings == []
    case PrecommitDone(ok) => Built(h, t, dryRun, resume, env) && ok == (env.findings == [])
    case CommitDone(d) => Built(h, t, dryRun, resume, env) && env.findings == [] && d == dryRun
    case TriageHold => EndsAs(h, t, dryRun, resume, env, Returned(Done)) && FinalTriage(h, t, dryRun, resume, env) == Hold
    case PipelineDone(x) => EndsAs(h, t, dryRun, resume, env, Returned(Done)) && x == FinalTriage(h, t, dryRun, resume, env)
    case Stop => !EndsAs(h, t, dryRun, resume, env, Raised)
    case _ => false
  }

  lemma StageHalts(h: Heuristics, t: Task, dryRun: bool, resume: Option<Checkpoint>, env: Env)
    ensures OpenPart(t, dryRun, resume, env).halt.None? <==> Opens(t, dryRun, env)
    ensures Opens(t, dryRun, env) ==> (PlanPart(t, dryRun, resume, env).halt.None? <==> Planned(t, dryRun, resume, env))
    ensures Planned(t, dryRun, resume, env) ==> (LoopPart(h, t, dryRun, resume, env).halt.None? <==> Built(h, t, dryRun, resume, env))
    ensures PrecommitPart(resume, env).halt.None? <==> env.findings == []
  {
    hide L.LoopFrom, L.Loop, Within, OpenPart, Findings, L.Checks;
    OpenIs(t, dryRun, resume, env);
    ResumeCases(resume);
    L.LoopStarts(h, t, dryRun, env.rounds);
    LoopAlwaysEnds(h, t, dryRun, env.rounds, 0, L.START);
  }

  /** Whatever is logged outside the loop is logged exactly when it should be. */
  lemma RunLogsIff(h: Heuristics, t: Task, dryRun: bool, resume: Option<Checkpoint>, env: Env, e: StoreEvent)
    requires !LoopEvent(e)
    ensures Logs(Run(h, t, dryRun, resume, env).ops, e) <==> ShouldLog(h, t, dryRun, resume, env, e)
  {
    hide Run, Logs, OpenPart, LoopPart, PrecommitPart, ShipPart, FinalTriage, Within, L.Loop;
    RunLogs(h, t, dryRun, resume, env, e);
    StageHalts(h, t, dryRun, resume, env);
    ResumeCases(resume);
    L.LoopStarts(h, t, dryRun, env.rounds);
    LoopAlwaysEnds(h, t, dryRun, env.rounds, 0, L.START);
  }

  predicate StopsLast(ops: seq<Op>) {
    |ops| > 0 && ops[|ops| - 1] == Append(Stop)
  }

  lemma ThenStopsLast(a: Part, b: Part)
    requires a.halt.Some? && a.halt != Some(Raised) ==> StopsLast(a.ops)
    requires b.halt.Some? && b.halt != Some(Raised) ==> StopsLast(b.ops)
    ensures Then(a, b).halt.Some? && Then(a, b).halt != Some(Raised) ==> StopsLast(Then(a, b).ops)
  {
  }

  /** Unless the ledger raised, the last thing logged is the stop. */
  lemma RunStopsLast(h: Heuristics, t: Task, dryRun: bool, resume: Option<Checkpoint>, env: Env)
    ensures Run(h, t, dryRun, resume, env).halt != Some(Raised) ==> StopsLast(Run(h, t, dryRun, resume, env).ops)
  {
    hide L.Loop, BudgetLimitHit, FinalTriage, Findings, L.Checks;
    var open, plan := OpenPart(t, dryRun, resume, env), PlanPart(t, dryRun, resume, env);
    var loop, precommit := LoopPart(h, t, dryRun, resume, env), PrecommitPart(resume, env);
    var ship := ShipPart(t, dryRun, resume, FinalTriage(h, t, dryRun, resume, env));
    assert open.halt.Some? ==> StopsLast(open.ops);
    assert plan.halt.Some? ==> StopsLast(plan.ops);
    assert loop.halt.Some? && loop.halt != Some(Raised) ==> StopsLast(loop.ops);
    assert precommit.halt.Some? ==> StopsLast(precommit.ops);
    assert StopsLast(ship.ops);
    hide OpenPart, PlanPart, LoopPart, PrecommitPart, ShipPart, StopsLast;
    ThenStopsLast(open, plan);
    ThenStopsLast(Then(open, plan), loop);
    ThenStopsLast(Then(Then(open, plan), loop), precommit);
    ThenStopsLast(Vetting(h, t, dryRun, resume, env), ship);
  }

  // ---- what the caller and the record are told

  /** Exit code 0 means the run finished, 2 that it waits for a human, 1 anything else; the log says the same. */
  lemma ExitCodeTells(h: Heuristics, t: Task, dryRun: bool, resume: Option<Checkpoint>, env: Env)
    ensures var p := Run(h, t, dryRun, resume, env);
      && p.halt.Some? && ExitCode(p.halt.value) in {0, 1, 2}
      && (ExitCode(p.halt.value) == 0 <==> exists x :: Logs(p.ops, StoreEvent.PipelineDone(x)))
      && (ExitCode(p.halt.value) == 2 <==> exists c :: Logs(p.ops, CheckpointPaused(c)))
  {
    hide Run, Logs, Pauses, Built;
    var p := Run(h, t, dryRun, resume, env);
    RunEndsIff(h, t, dryRun, resume, env, Returned(Done));
    RunEndsIff(h, t, dryRun, resume, env, Returned(AwaitingApproval));
    forall x
      ensures Logs(p.ops, StoreEvent.PipelineDone(x)) <==> ShouldLog(h, t, dryRun, resume, env, StoreEvent.PipelineDone(x))
    {
      RunLogsIff(h, t, dryRun, resume, env, StoreEvent.PipelineDone(x));
    }
    forall c
      ensures Logs(p.ops, CheckpointPaused(c)) <==> Pauses(h, t, dryRun, resume, env, c)
    {
      RunLogsIff(h, t, dryRun, resume, env, CheckpointPaused(c));
    }
    var triage := FinalTriage(h, t, dryRun, resume, env);
    assert ShouldLog(h, t, dryRun, resume, env, StoreEvent.PipelineDone(triage)) <==> p.halt == Some(Returned(Done));
  }

  /** The Run record says done, cancelled or failed exactly for a finished, a rejected and a planless run. */
  lemma RecordTells(h: Heuristics, t: Task, dryRun: bool, resume: Option<Checkpoint>, env: Env, status: Status)
    requires Run(h, t, dryRun, resume, env).halt == Some(Returned(status))
    ensures var says := RecordOf(t, env, status, Run(h, t, dryRun, resume, env).body).status;
      && (says == E.RunDone <==> Built(h, t, dryRun, resume, env) && env.findings == [] && !Pauses(h, t, dryRun, resume, env, PrePr))
      && (says == E.Cancelled <==> LoopEndsAs(h, t, dryRun, resume, env, L.RejectedEnd))
      && (says == E.RunFailed <==> Opens(t, dryRun, env) && !PlanFound(dryRun, resume, env))
  {
    hide Run, Pauses, Built, LoopEndsAs, Opens, PlanFound, E.EmitterSummary;
    RunEndsIff(h, t, dryRun, resume, env, Returned(Done));
    RunEndsIff(h, t, dryRun, resume, env, Returned(Rejected));
    RunEndsIff(h, t, dryRun, resume, env, Returned(FailedStatus));
  }

  /** What the triage of a finished run looks at: the loop's review and outcomes, or what a resume brings. */
  lemma TriageSees(h: Heuristics, t: Task, dryRun: bool, resume: Option<Checkpoint>, env: Env)
    requires Built(h, t, dryRun, resume, env)
    ensures var outcomes := L.Loop(h, t, dryRun, env.rounds).locals.outcomes;
      Implements(resume) ==>
        FinalTriage(h, t, dryRun, resume, env) == TerminalTriage(h, t.policy, outcomes, LoopEndOf(h, t, dryRun, env).value.text)
    ensures resume == Some(DiffReview) ==> FinalTriage(h, t, dryRun, resume, env) == TerminalTriage(h, t.policy, [], env.storedReview)
    ensures resume == Some(PrePr) ==> FinalTriage(h, t, dryRun, resume, env) == TerminalTriage(h, t.policy, [], "")
  {
    hide L.Loop, TerminalTriage, Planned;
  }

  // ---- a pause whose log entry a kill swallowed

  lemma GoodOpening(t: Task, resume: Option<Checkpoint>)
    requires Loaded(t)
    ensures OpenPart(t, true, resume, GoodEnv()).halt.None? && Opens(t, true, GoodEnv())
    ensures OpenPart(t, true, resume, GoodEnv()).ops ==
      [Upsert, Append(PipelineStart(true, resume)), Append(WorktreeSkipped), SetAwaiting(Status.Running, None)]
  {
    GoodBudget(t);
    LimitHitIff(t, 0, 0, 0, 0.0);
  }

  /** A run that pauses at plan_review writes the pause sixth. */
  lemma PlanPauseSixth(h: Heuristics, t: Task)
    requires Loaded(t) && PlanReview in t.checkpoints
    ensures var ops := Run(h, t, true, None, GoodEnv()).ops;
      && |ops| == 8 && Cut(ops, Some(6)) == ops[..6]
      && ops[..6] == [Upsert, Append(PipelineStart(true, None)), Append(WorktreeSkipped), SetAwaiting(Status.Running, None),
                      Append(PlanDone), PauseWrite(PlanReview)]
  {
    hide L.LoopFrom, FinalTriage, OpenPart, Loaded;
    GoodOpening(t, None);
    var open, plan := OpenPart(t, true, None, GoodEnv()), PlanPart(t, true, None, GoodEnv());
    assert Run(h, t, true, None, GoodEnv()).ops == open.ops + plan.ops;
  }

  lemma {:induction false} RowStays(h: Heuristics, s: State, ops: seq<Op>)
    requires s.row.Some?
    ensures Play(h, s, ops).row.Some?
    decreases |ops|
  {
    hide CombinedStatus, MustPassOk;
    if ops != [] {
      RowStays(h, After(h, s, ops[0]), ops[1..]);
    }
  }

  lemma PausedRow(h: Heuristics, middle: seq<Op>, c: Checkpoint)
    ensures RowAwaits(Play(h, INITIAL, [Upsert] + middle + [PauseWrite(c)]).row, c)
  {
    hide Play, Safe;
    SafeOne(h, NamingOnly, INITIAL, Upsert);
    SafeConcat(h, NamingOnly, INITIAL, [Upsert], middle);
    RowStays(h, After(h, INITIAL, Upsert), middle);
    PlaySnoc(h, INITIAL, [Upsert] + middle, PauseWrite(c));
  }

  lemma FirstSixSilent(first: seq<Op>)
    requires first == [Upsert, Append(PipelineStart(true, None)), Append(WorktreeSkipped), SetAwaiting(Status.Running, None),
                       Append(PlanDone), PauseWrite(PlanReview)]
    ensures !Logs(first, CheckpointPaused(PlanReview))
  {
  }

  /**
   * Killed between the pause write and its log entry, a run can still be resumed: the history then
   * logs a resume from plan_review without a pause at plan_review.
   */
  lemma KilledPauseIsResumed(h: Heuristics, t: Task)
    requires Loaded(t) && PlanReview in t.checkpoints
    ensures var journal := Journal(h, INITIAL, [Act(RunTask(t, true, GoodEnv()), Some(6)), Act(Resume(t, true, GoodEnv(), true), None)]);
      Logs(journal, CheckpointResumed(PlanReview)) && !Logs(journal, CheckpointPaused(PlanReview))
  {
    hide Run, Play, Loaded, Logs;
    var env := GoodEnv();
    var acts := [Act(RunTask(t, true, env), Some(6)), Act(Resume(t, true, env, true), None)];
    PlanPauseSixth(h, t);
    GoodOpening(t, Some(PlanReview));
    var first := Run(h, t, true, None, env).ops[..6];
    var middle := first[1..5];
    assert first == [Upsert] + middle + [PauseWrite(PlanReview)];
    PausedRow(h, middle, PlanReview);
    var s := Play(h, INITIAL, first);
    var second := Run(h, t, true, Some(PlanReview), env).ops;
    assert acts[1..] == [acts[1]] && acts[1..][1..] == [];
    assert OpsOf(h, s.row, acts[1].command) == second;
    assert Journal(h, s, acts[1..]) == second + Journal(h, Play(h, s, second), []);
    assert Journal(h, s, acts[1..]) == second;
    RunLogsIff(h, t, true, Some(PlanReview), env, CheckpointResumed(PlanReview));
    RunLogsIff(h, t, true, Some(PlanReview), env, CheckpointPaused(PlanReview));
    ConcatLogs(first, second, CheckpointResumed(PlanReview));
    ConcatLogs(first, second, CheckpointPaused(PlanReview));
    assert !Logs(first, CheckpointPaused(PlanReview)) by { FirstSixSilent(first); }
  }
}
