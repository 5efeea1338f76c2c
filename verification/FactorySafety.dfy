/** Safety of the pipeline over every history of runs, resumes, rejections and kills. */
module FactorySafety {
  import opened Numeric
  import opened Reviews
  import opened Tasks
  import opened Stores
  import opened Pipeline
  import L = ImplementLoop

  /** How far the latest implementation has been vetted, and by a dry run or a real one. */
  datatype Vet = Unvetted | GatesPassed(dryRun: bool) | Vetted(dryRun: bool)

  datatype State = State(row: Option<Row>, dryRun: bool, vet: Vet, precommit: bool)

  const INITIAL: State := State(None, false, Unvetted, false)

  /** What one write does: a new implementation voids the vetting, passing gates and then a CLEAN review restore it. */
  function After(h: Heuristics, s: State, op: Op): State {
    match op
    case Append(PipelineStart(d, _)) => s.(dryRun := d, precommit := false)
    case Append(ImplementDone(_)) => s.(vet := Unvetted)
    case Append(ImplementFailed(_)) => s.(vet := Unvetted)
    case Append(GatesDone(_, _, outcomes)) => s.(vet := if MustPassOk(outcomes) then GatesPassed(s.dryRun) else Unvetted)
    case Append(PrecommitDone(ok)) => s.(precommit := ok)
    case Append(_) => s
    case SetReview(text) =>
      s.(row := RowAfter(s.row, op),
         vet := if s.vet.GatesPassed? && CombinedStatus(h, text) == Clean then Vetted(s.vet.dryRun) else Unvetted)
    case _ => s.(row := RowAfter(s.row, op))
  }

  function Play(h: Heuristics, s: State, ops: seq<Op>): State
    decreases |ops|
  {
    if ops == [] then s else Play(h, After(h, s, ops[0]), ops[1..])
  }

  // ---- what is kept

  /**
   * How much is demanded: only that paused rows name their checkpoint, or also that commits are
   * vetted, or further that all vetting and committing happens in one dry_run setting.
   */
  datatype Demand = NamingOnly | VettedCommits | Fixed(dryRun: bool)

  predicate Awaits(s: State, c: Checkpoint) {
    s.row.Some? && s.row.value.status == AwaitingApproval && s.row.value.awaiting == Some(c)
  }

  /** Kept by every write. */
  predicate Inv(demand: Demand, s: State) {
    && (s.row.Some? && s.row.value.status == AwaitingApproval ==> s.row.value.awaiting.Some?)
    && (!demand.NamingOnly? && (Awaits(s, DiffReview) || Awaits(s, PrePr)) ==> s.vet.Vetted?)
    && (demand.Fixed? && !s.vet.Unvetted? ==> s.vet.dryRun == demand.dryRun)
  }

  /** A commit needs a vetted implementation and this run's hard gates, in a fixed setting when one is demanded. */
  predicate CommitOk(demand: Demand, s: State, op: Op) {
    !demand.NamingOnly? && op.Append? && op.event.CommitDone? ==>
      s.vet.Vetted? && s.precommit && (demand.Fixed? ==> op.event.dryRun == demand.dryRun == s.vet.dryRun)
  }

  predicate Safe(h: Heuristics, demand: Demand, s: State, ops: seq<Op>)
    decreases |ops|
  {
    Inv(demand, s) && (ops == [] || (CommitOk(demand, s, ops[0]) && Safe(h, demand, After(h, s, ops[0]), ops[1..])))
  }

  lemma {:induction false} SafeConcat(h: Heuristics, demand: Demand, s: State, a: seq<Op>, b: seq<Op>)
    ensures Play(h, s, a + b) == Play(h, Play(h, s, a), b)
    ensures Safe(h, demand, s, a + b) <==> Safe(h, demand, s, a) && Safe(h, demand, Play(h, s, a), b)
    decreases |a|
  {
    hide After, Inv, CommitOk;
    if a == [] {
      assert a + b == b;
      assert Safe(h, demand, s, b) ==> Inv(demand, s);
    } else {
      assert (a + b)[1..] == a[1..] + b;
      SafeConcat(h, demand, After(h, s, a[0]), a[1..], b);
    }
  }

  lemma {:induction false} SafeEnd(h: Heuristics, demand: Demand, s: State, ops: seq<Op>)
    requires Safe(h, demand, s, ops)
    ensures Inv(demand, Play(h, s, ops))
    decreases |ops|
  {
    if ops != [] {
      SafeEnd(h, demand, After(h, s, ops[0]), ops[1..]);
    }
  }

  lemma SafeOne(h: Heuristics, demand: Demand, s: State, a: Op)
    ensures Play(h, s, [a]) == After(h, s, a)
    ensures Safe(h, demand, s, [a]) <==> Inv(demand, s) && CommitOk(demand, s, a) && Inv(demand, After(h, s, a))
  {
    hide After, Inv, CommitOk;
    assert [a][1..] == [];
    assert Safe(h, demand, After(h, s, a), []) <==> Inv(demand, After(h, s, a));
  }

  lemma SafeTwo(h: Heuristics, demand: Demand, s: State, a: Op, b: Op)
    ensures Play(h, s, [a, b]) == After(h, After(h, s, a), b)
    ensures Safe(h, demand, s, [a, b]) <==>
      Inv(demand, s) && CommitOk(demand, s, a) && Inv(demand, After(h, s, a)) && CommitOk(demand, After(h, s, a), b) && Inv(demand, After(h, After(h, s, a), b))
  {
    hide After, Inv, CommitOk;
    assert [a, b] == [a] + [b];
    SafeConcat(h, demand, s, [a], [b]);
    SafeOne(h, demand, s, a);
    SafeOne(h, demand, After(h, s, a), b);
  }

  lemma SafeThree(h: Heuristics, demand: Demand, s: State, a: Op, b: Op, c: Op)
    ensures var s2 := After(h, After(h, s, a), b);
      && Play(h, s, [a, b, c]) == After(h, s2, c)
      && (Safe(h, demand, s, [a, b, c]) <==> Safe(h, demand, s, [a, b]) && CommitOk(demand, s2, c) && Inv(demand, After(h, s2, c)))
  {
    hide After, Inv, CommitOk;
    assert [a, b, c] == [a, b] + [c];
    SafeConcat(h, demand, s, [a, b], [c]);
    SafeTwo(h, demand, s, a, b);
    SafeOne(h, demand, After(h, After(h, s, a), b), c);
    assert Safe(h, demand, s, [a, b]) ==> Inv(demand, After(h, After(h, s, a), b));
  }

  // ---- the implement loop

  predicate InMode(demand: Demand, dryRun: bool) {
    demand.Fixed? ==> demand.dryRun == dryRun
  }

  /** The row runs and this invocation's dry_run setting is current. */
  predicate Running(s: State, dryRun: bool) {
    s.row.Some? && s.row.value.status == Status.Running && s.dryRun == dryRun
  }

  /** The stored status after a stretch of the loop that ended this way. */
  predicate StoredAfter(s: State, end: Option<L.LoopEnd>, dryRun: bool) {
    s.row.Some? &&
    match end
    case None => Running(s, dryRun)
    case Some(Reviewed(_)) => Running(s, dryRun)
    case Some(Crashed) => Running(s, dryRun)
    case Some(RejectedEnd) => s.row.value.status in {Blocked, FailedStatus}
    case Some(_) => s.row.value.status == Blocked
  }

  /** Writing a stop into the row while an implement loop runs. */
  lemma HaltSafe(h: Heuristics, demand: Demand, s: State, dryRun: bool, status: Status, e: StoreEvent)
    requires Running(s, dryRun) && Inv(demand, s) && status in {Blocked, FailedStatus}
    requires e.BudgetExhausted? || e.ImplementFailed?
    ensures var ops := [SetStatus(status), Append(e)]; var s' := Play(h, s, ops);
      Safe(h, demand, s, ops) && s'.row.Some? && s'.row.value.status == status
  {
    hide Safe, Play;
    SafeTwo(h, demand, s, SetStatus(status), Append(e));
  }

  lemma RanSafe(h: Heuristics, demand: Demand, s: State, dryRun: bool, k: nat, outcomes: seq<Outcome>)
    requires Running(s, dryRun) && Inv(demand, s) && InMode(demand, dryRun)
    ensures var ops := [Append(ImplementDone(k)), Append(GatesDone(k, MustPassOk(outcomes), outcomes))]; var s' := Play(h, s, ops);
      && Safe(h, demand, s, ops) && Running(s', dryRun) && Inv(demand, s')
      && s'.vet == if MustPassOk(outcomes) then GatesPassed(dryRun) else Unvetted
  {
    hide Safe, Play, MustPassOk;
    SafeTwo(h, demand, s, Append(ImplementDone(k)), Append(GatesDone(k, MustPassOk(outcomes), outcomes)));
  }

  lemma FailedGatesSafe(h: Heuristics, demand: Demand, s: State, t: Task, dryRun: bool, k: nat, r: L.Round, v: L.Locals)
    requires Running(s, dryRun) && Inv(demand, s) && InMode(demand, dryRun)
    requires BudgetLimitHit(t, r.elapsedStart, k, v.failures, v.costUsd).None? && (dryRun || r.implementOk)
    requires !MustPassOk(L.RoundOutcomes(t, dryRun, r))
    ensures var g := L.GateStep(t, dryRun, k, r, v); var s' := Play(h, s, g.ops);
      && Safe(h, demand, s, g.ops) && StoredAfter(s', g.end, dryRun) && (g.end.None? ==> s'.vet == Unvetted) && !MustPassOk(g.locals.outcomes)
  {
    hide MustPassOk, BudgetLimitHit, L.RoundOutcomes, L.AllNamed, L.Checks, CombinedStatus, FailedCount, Safe, Play;
    var g := L.GateStep(t, dryRun, k, r, v);
    var outcomes := L.RoundOutcomes(t, dryRun, r);
    var ran := [Append(ImplementDone(k)), Append(GatesDone(k, false, outcomes))];
    RanSafe(h, demand, s, dryRun, k, outcomes);
    var s1 := Play(h, s, ran);
    SafeOne(h, demand, s1, Append(GatesFailed(k)));
    SafeConcat(h, demand, s, ran, [Append(GatesFailed(k))]);
    var front := ran + [Append(GatesFailed(k))];
    assert Play(h, s, front) == s1;
    if |g.ops| == 3 {
      assert g.ops == front;
    } else {
      var halt := g.ops[3..];
      assert halt == [SetStatus(Blocked), Append(g.ops[4].event)];
      HaltSafe(h, demand, s1, dryRun, Blocked, g.ops[4].event);
      SafeConcat(h, demand, s, front, halt);
      assert g.ops == front + halt;
    }
  }

  lemma GateStepSafe(h: Heuristics, demand: Demand, s: State, t: Task, dryRun: bool, k: nat, r: L.Round, v: L.Locals)
    requires Running(s, dryRun) && Inv(demand, s) && InMode(demand, dryRun)
    ensures var g := L.GateStep(t, dryRun, k, r, v); var s' := Play(h, s, g.ops);
      && Safe(h, demand, s, g.ops) && StoredAfter(s', g.end, dryRun)
      && (g.end.None? ==> s'.vet == if MustPassOk(g.locals.outcomes) then GatesPassed(dryRun) else Unvetted)
  {
    hide MustPassOk, BudgetLimitHit, L.RoundOutcomes, L.AllNamed, L.Checks, CombinedStatus, FailedCount, Safe, Play, Inv;
    var g := L.GateStep(t, dryRun, k, r, v);
    var hit := BudgetLimitHit(t, r.elapsedStart, k, v.failures, v.costUsd);
    if hit.Some? {
      HaltSafe(h, demand, s, dryRun, Blocked, BudgetExhausted(k, hit.value));
    } else if !dryRun && !r.implementOk {
      HaltSafe(h, demand, s, dryRun, FailedStatus, ImplementFailed(k));
    } else {
      var outcomes := L.RoundOutcomes(t, dryRun, r);
      var ran := [Append(ImplementDone(k)), Append(GatesDone(k, MustPassOk(outcomes), outcomes))];
      RanSafe(h, demand, s, dryRun, k, outcomes);
      if !MustPassOk(outcomes) {
        FailedGatesSafe(h, demand, s, t, dryRun, k, r, v);
      }
    }
  }

  lemma ReviewStepSafe(h: Heuristics, demand: Demand, s: State, t: Task, dryRun: bool, k: nat, r: L.Round, v: L.Locals)
    requires Running(s, dryRun) && Inv(demand, s) && InMode(demand, dryRun)
    requires s.vet == if MustPassOk(v.outcomes) then GatesPassed(dryRun) else Unvetted
    ensures var g := L.ReviewStep(h, t, dryRun, k, r, v); var s' := Play(h, s, g.ops);
      && Safe(h, demand, s, g.ops) && StoredAfter(s', g.end, dryRun)
      && (g.end.None? ==> k < EffectiveMaxPatchRounds(t))
      && (g.end.Some? && g.end.value.Reviewed? ==> s'.vet == Vetted(dryRun) && MustPassOk(g.locals.outcomes))
  {
    hide MustPassOk, ReviewText, CombinedStatus, Safe, Play;
    var g := L.ReviewStep(h, t, dryRun, k, r, v);
    SafeOne(h, demand, s, g.ops[0]);
    if |g.ops| == 2 {
      SafeTwo(h, demand, s, g.ops[0], g.ops[1]);
      assert g.ops == [g.ops[0], g.ops[1]];
    } else {
      assert g.ops == [g.ops[0]];
    }
  }

  lemma GateStepNeverReviews(t: Task, dryRun: bool, k: nat, r: L.Round, v: L.Locals)
    ensures var g := L.GateStep(t, dryRun, k, r, v); g.end.Some? ==> !g.end.value.Reviewed?
  {
  }

  lemma RoundSafe(h: Heuristics, demand: Demand, s: State, t: Task, dryRun: bool, k: nat, r: L.Round, v: L.Locals)
    requires Running(s, dryRun) && Inv(demand, s) && InMode(demand, dryRun)
    ensures var g := L.RoundStep(h, t, dryRun, k, r, v); var s' := Play(h, s, g.ops);
      && Safe(h, demand, s, g.ops) && StoredAfter(s', g.end, dryRun)
      && (g.end.None? ==> k < EffectiveMaxPatchRounds(t))
      && (g.end.Some? && g.end.value.Reviewed? ==> s'.vet == Vetted(dryRun) && MustPassOk(g.locals.outcomes))
  {
    hide MustPassOk, L.GateStep, L.ReviewStep, Safe, Play, EffectiveMaxPatchRounds;
    var gates := L.GateStep(t, dryRun, k, r, v);
    var s1 := Play(h, s, gates.ops);
    GateStepSafe(h, demand, s, t, dryRun, k, r, v);
    GateStepNeverReviews(t, dryRun, k, r, v);
    if gates.end.None? {
      SafeEnd(h, demand, s, gates.ops);
      ReviewStepSafe(h, demand, s1, t, dryRun, k, r, gates.locals);
      SafeConcat(h, demand, s, gates.ops, L.ReviewStep(h, t, dryRun, k, r, gates.locals).ops);
    }
  }

  lemma SafeEmpty(h: Heuristics, demand: Demand, s: State)
    ensures Play(h, s, []) == s && (Safe(h, demand, s, []) <==> Inv(demand, s))
  {
  }

  /** From any round within the bound, the loop is safe, and a loop that falls out ended CLEAN with all must-pass gates ok. */
  lemma {:induction false} LoopSafe(h: Heuristics, demand: Demand, s: State, t: Task, dryRun: bool, rounds: nat -> L.Round, k: nat, v: L.Locals)
    requires Running(s, dryRun) && Inv(demand, s) && InMode(demand, dryRun) && (demand.NamingOnly? || k <= EffectiveMaxPatchRounds(t))
    ensures var g := L.LoopFrom(h, t, dryRun, rounds, k, v); var s' := Play(h, s, g.ops);
      && Safe(h, demand, s, g.ops) && g.end.Some? && StoredAfter(s', g.end, dryRun)
      && (g.end.value.Reviewed? && k <= EffectiveMaxPatchRounds(t) ==> s'.vet == Vetted(dryRun) && MustPassOk(g.locals.outcomes))
    decreases EffectiveMaxPatchRounds(t) - k
  {
    hide MustPassOk, L.GateStep, L.ReviewStep, Safe, Play, L.LoopFrom, L.RoundStep, EffectiveMaxPatchRounds;
    if k > EffectiveMaxPatchRounds(t) {
      L.FallThrough(h, t, dryRun, rounds, k, v);
      SafeEmpty(h, demand, s);
      return;
    }
    L.Unroll(h, t, dryRun, rounds, k, v);
    RoundSafe(h, demand, s, t, dryRun, k, rounds(k), v);
    var here := L.RoundStep(h, t, dryRun, k, rounds(k), v);
    if here.end.None? {
      var s1, rest := Play(h, s, here.ops), L.LoopFrom(h, t, dryRun, rounds, k + 1, here.locals);
      SafeEnd(h, demand, s, here.ops);
      LoopSafe(h, demand, s1, t, dryRun, rounds, k + 1, here.locals);
      SafeConcat(h, demand, s, here.ops, rest.ops);
    }
  }

  // ---- the other stages

  predicate Quiet(op: Op) {
    op.Append? && !op.event.PipelineStart? && !op.event.ImplementDone? && !op.event.ImplementFailed?
    && !op.event.GatesDone? && !op.event.PrecommitDone? && !op.event.CommitDone?
  }

  /** One telling write followed by log entries that tell nothing about vetting. */
  lemma {:induction false} ThenQuiet(h: Heuristics, demand: Demand, s: State, op: Op, quiet: seq<Op>)
    requires forall i :: 0 <= i < |quiet| ==> Quiet(quiet[i])
    ensures Play(h, s, [op] + quiet) == After(h, s, op)
    ensures Safe(h, demand, s, [op] + quiet) <==> Inv(demand, s) && CommitOk(demand, s, op) && Inv(demand, After(h, s, op))
    decreases |quiet|
  {
    hide Safe, Play, Inv;
    SafeOne(h, demand, s, op);
    if quiet == [] {
      assert [op] + quiet == [op];
    } else {
      var front, last := quiet[..|quiet| - 1], quiet[|quiet| - 1];
      ThenQuiet(h, demand, s, op, front);
      SafeOne(h, demand, After(h, s, op), last);
      SafeConcat(h, demand, s, [op] + front, [last]);
      assert [op] + quiet == ([op] + front) + [last];
      assert After(h, After(h, s, op), last) == After(h, s, op);
    }
  }

  /** Two telling writes, each with its quiet log entries. */
  lemma TwoThenQuiet(h: Heuristics, demand: Demand, s: State, a: Op, qa: seq<Op>, b: Op, qb: seq<Op>)
    requires forall i :: 0 <= i < |qa| ==> Quiet(qa[i])
    requires forall i :: 0 <= i < |qb| ==> Quiet(qb[i])
    ensures var ops := [a] + qa + ([b] + qb); var s1 := After(h, s, a);
      && Play(h, s, ops) == After(h, s1, b)
      && (Inv(demand, s) && CommitOk(demand, s, a) && Inv(demand, s1) && CommitOk(demand, s1, b) && Inv(demand, After(h, s1, b)) ==> Safe(h, demand, s, ops))
  {
    hide Safe, Play, Inv, After, CommitOk;
    ThenQuiet(h, demand, s, a, qa);
    ThenQuiet(h, demand, After(h, s, a), b, qb);
    SafeConcat(h, demand, s, [a] + qa, [b] + qb);
  }

  /** The stored status at the end of an invocation, by how it ended. */
  predicate StoredAtEnd(s: State, end: End) {
    s.row.Some? &&
    match end
    case NoEvidence => s.row.value.status == FailedStatus
    case Raised => s.row.value.status == Status.Running
    case Returned(status) =>
      if status == Rejected then s.row.value.status in {Blocked, FailedStatus}
      else s.row.value.status == status
  }

  predicate StoredAtHalt(s: State, dryRun: bool, halt: Option<End>) {
    if halt.None? then Running(s, dryRun) else StoredAtEnd(s, halt.value)
  }

  lemma WorktreeSafe(h: Heuristics, demand: Demand, s: State, dryRun: bool, resume: Option<Checkpoint>, env: Env)
    requires Inv(demand, s) && InMode(demand, dryRun)
    ensures var p := WorktreePart(dryRun, resume, env); var s' := Play(h, s, p.ops);
      Safe(h, demand, s, p.ops) && StoredAtHalt(s', dryRun, p.halt) && s'.vet == s.vet
  {
    hide Safe, Play;
    var p := WorktreePart(dryRun, resume, env);
    var s1 := After(h, After(h, s, Upsert), Append(PipelineStart(dryRun, resume)));
    SafeTwo(h, demand, s, Upsert, Append(PipelineStart(dryRun, resume)));
    var opening := [Upsert, Append(PipelineStart(dryRun, resume))];
    if p.halt.Some? {
      SafeThree(h, demand, s1, Append(WorktreeError), SetStatus(FailedStatus), Append(Stop));
      SafeTwo(h, demand, s1, Append(WorktreeError), SetStatus(FailedStatus));
      SafeConcat(h, demand, s, opening, [Append(WorktreeError), SetStatus(FailedStatus), Append(Stop)]);
    } else {
      var ready := Append(if dryRun then WorktreeSkipped else WorktreeReady);
      SafeTwo(h, demand, s1, ready, SetAwaiting(Status.Running, None));
      SafeConcat(h, demand, s, opening, [ready, SetAwaiting(Status.Running, None)]);
    }
  }

  lemma BudgetSafe(h: Heuristics, demand: Demand, s: State, t: Task, dryRun: bool, env: Env)
    requires Inv(demand, s) && Running(s, dryRun)
    ensures var p := BudgetPart(t, env); var s' := Play(h, s, p.ops);
      Safe(h, demand, s, p.ops) && StoredAtHalt(s', dryRun, p.halt) && s'.vet == s.vet
  {
    hide BudgetLimitHit;
    var p := BudgetPart(t, env);
    if p.halt.Some? {
      SafeTwo(h, demand, s, SetStatus(Blocked), Append(Stop));
    }
  }

  lemma PauseSafe(h: Heuristics, demand: Demand, s: State, c: Checkpoint)
    requires Inv(demand, s) && s.row.Some? && (demand.NamingOnly? || c == PlanReview || s.vet.Vetted?)
    ensures var s' := Play(h, s, PauseOps(c));
      Safe(h, demand, s, PauseOps(c)) && s'.row.Some? && s'.row.value.status == AwaitingApproval && s'.vet == s.vet
  {
    hide Safe, Play;
    var quiet := [Append(CheckpointPaused(c)), Append(Stop)];
    ThenQuiet(h, demand, s, SetAwaiting(AwaitingApproval, Some(c)), quiet);
    assert PauseOps(c) == [SetAwaiting(AwaitingApproval, Some(c))] + quiet;
  }

  lemma PlanSafe(h: Heuristics, demand: Demand, s: State, t: Task, dryRun: bool, resume: Option<Checkpoint>, env: Env)
    requires Inv(demand, s) && Running(s, dryRun)
    ensures var p := PlanPart(t, dryRun, resume, env); var s' := Play(h, s, p.ops);
      Safe(h, demand, s, p.ops) && StoredAtHalt(s', dryRun, p.halt) && s'.vet == s.vet
  {
    hide Safe, Play;
    var p := PlanPart(t, dryRun, resume, env);
    if p.ops == [] {
      SafeEmpty(h, demand, s);
    } else if p.halt.None? {
      SafeOne(h, demand, s, p.ops[0]);
      assert p.ops == [p.ops[0]];
    } else if p.halt == Some(Returned(AwaitingApproval)) {
      SafeOne(h, demand, s, Append(PlanDone));
      PauseSafe(h, demand, s, PlanReview);
      SafeConcat(h, demand, s, [Append(PlanDone)], PauseOps(PlanReview));
    } else {
      ThenQuiet(h, demand, s, p.ops[0], p.ops[1..]);
      assert p.ops == [p.ops[0]] + p.ops[1..];
    }
  }

  /** What entitles an invocation to start where it does. */
  predicate MayStart(demand: Demand, s: State, t: Task, resume: Option<Checkpoint>) {
    demand.NamingOnly? || if RunsLoop(resume) then EffectiveMaxPatchRounds(t) >= 0 else s.vet.Vetted?
  }

  /** The loop stage leaves a vetted implementation, or halts; a resumed run brings its own. */
  lemma LoopStageSafe(h: Heuristics, demand: Demand, s: State, t: Task, dryRun: bool, resume: Option<Checkpoint>, env: Env)
    requires Inv(demand, s) && Running(s, dryRun) && InMode(demand, dryRun)
    requires MayStart(demand, s, t, resume)
    ensures var p := LoopPart(h, t, dryRun, resume, env); var s' := Play(h, s, p.ops);
      Safe(h, demand, s, p.ops) && StoredAtHalt(s', dryRun, p.halt) && (p.halt.None? ==> demand.NamingOnly? || s'.vet.Vetted?)
  {
    hide Safe, Play, L.LoopFrom;
    if !RunsLoop(resume) {
      SafeEmpty(h, demand, s);
    } else {
      var g := L.Loop(h, t, dryRun, env.rounds);
      var s1 := Play(h, s, g.ops);
      LoopSafe(h, demand, s, t, dryRun, env.rounds, 0, L.START);
      SafeEnd(h, demand, s, g.ops);
      SafeOne(h, demand, s1, Append(Stop));
      SafeConcat(h, demand, s, g.ops, [Append(Stop)]);
      if g.end.value.Reviewed? {
        PauseSafe(h, demand, s1, DiffReview);
        SafeConcat(h, demand, s, g.ops, PauseOps(DiffReview));
      }
    }
  }

  lemma PrecommitSafe(h: Heuristics, demand: Demand, s: State, dryRun: bool, resume: Option<Checkpoint>, env: Env)
    requires Inv(demand, s) && Running(s, dryRun)
    ensures var p := PrecommitPart(resume, env); var s' := Play(h, s, p.ops);
      Safe(h, demand, s, p.ops) && StoredAtHalt(s', dryRun, p.halt) && s'.vet == s.vet && (p.halt.None? ==> s'.precommit)
  {
    hide Safe, Play;
    var p := PrecommitPart(resume, env);
    var ok := env.findings == [];
    var opening := if resume == Some(DiffReview) then [Append(CheckpointResumed(DiffReview))] else [];
    SafeEmpty(h, demand, s);
    SafeOne(h, demand, s, Append(CheckpointResumed(DiffReview)));
    assert Play(h, s, opening) == s && Safe(h, demand, s, opening);
    if ok {
      SafeOne(h, demand, s, Append(PrecommitDone(ok)));
      SafeConcat(h, demand, s, opening, [Append(PrecommitDone(ok))]);
    } else {
      var rest := [Append(PrecommitDone(ok)), SetStatus(Blocked), Append(Stop)];
      SafeTwo(h, demand, s, rest[0], rest[1]);
      SafeThree(h, demand, s, rest[0], rest[1], rest[2]);
      SafeConcat(h, demand, s, opening, rest);
    }
  }

  lemma ShipSafe(h: Heuristics, demand: Demand, s: State, t: Task, dryRun: bool, resume: Option<Checkpoint>, triage: Triage)
    requires Inv(demand, s) && Running(s, dryRun) && InMode(demand, dryRun) && (demand.NamingOnly? || (s.vet.Vetted? && s.precommit))
    ensures var p := ShipPart(t, dryRun, resume, triage); var s' := Play(h, s, p.ops);
      Safe(h, demand, s, p.ops) && p.halt.Some? && StoredAtEnd(s', p.halt.value)
  {
    hide Safe, Play;
    var p := ShipPart(t, dryRun, resume, triage);
    SafeOne(h, demand, s, Append(CommitDone(dryRun)));
    if PausesBeforePr(t, resume) {
      PauseSafe(h, demand, s, PrePr);
      SafeConcat(h, demand, s, [Append(CommitDone(dryRun))], PauseOps(PrePr));
    } else {
      var qa := (if resume == Some(PrePr) then [Append(CheckpointResumed(PrePr))] else [])
        + (if triage == Hold then [Append(StoreEvent.TriageHold)] else []);
      var qb := [Append(StoreEvent.PipelineDone(triage)), Append(Stop)];
      TwoThenQuiet(h, demand, s, Append(CommitDone(dryRun)), qa, SetAwaiting(Done, None), qb);
      assert p.ops == [Append(CommitDone(dryRun))] + qa + ([SetAwaiting(Done, None)] + qb);
    }
  }

  lemma ThenSafe(h: Heuristics, demand: Demand, s: State, a: Part, b: Part)
    requires Safe(h, demand, s, a.ops) && (a.halt.None? ==> Safe(h, demand, Play(h, s, a.ops), b.ops))
    ensures Safe(h, demand, s, Then(a, b).ops)
    ensures Play(h, s, Then(a, b).ops) == if a.halt.None? then Play(h, Play(h, s, a.ops), b.ops) else Play(h, s, a.ops)
    ensures Inv(demand, Play(h, s, a.ops)) && Inv(demand, Play(h, s, Then(a, b).ops))
  {
    hide Safe, Play, Inv;
    SafeConcat(h, demand, s, a.ops, b.ops);
    SafeEnd(h, demand, s, a.ops);
    SafeEnd(h, demand, s, Then(a, b).ops);
  }

  lemma OpenSafe(h: Heuristics, demand: Demand, s: State, t: Task, dryRun: bool, resume: Option<Checkpoint>, env: Env)
    requires Inv(demand, s) && InMode(demand, dryRun)
    ensures var p := OpenPart(t, dryRun, resume, env); var s' := Play(h, s, p.ops);
      Safe(h, demand, s, p.ops) && StoredAtHalt(s', dryRun, p.halt) && s'.vet == s.vet && Inv(demand, s')
  {
    hide Safe, Play, Inv, WorktreePart, BudgetPart, StoredAtEnd;
    var a := WorktreePart(dryRun, resume, env);
    WorktreeSafe(h, demand, s, dryRun, resume, env);
    SafeEnd(h, demand, s, a.ops);
    if a.halt.None? {
      BudgetSafe(h, demand, Play(h, s, a.ops), t, dryRun, env);
    }
    ThenSafe(h, demand, s, a, BudgetPart(t, env));
  }

  /** One invocation, from any kept state, keeps everything after every single write. */
  lemma RunSafe(h: Heuristics, demand: Demand, s: State, t: Task, dryRun: bool, resume: Option<Checkpoint>, env: Env)
    requires Inv(demand, s) && InMode(demand, dryRun) && MayStart(demand, s, t, resume)
    ensures var p := Run(h, t, dryRun, resume, env);
      Safe(h, demand, s, p.ops) && p.halt.Some? && StoredAtEnd(Play(h, s, p.ops), p.halt.value)
  {
    hide Safe, Play, Inv, OpenPart, PlanPart, LoopPart, PrecommitPart, ShipPart, FinalTriage, StoredAtEnd;
    var open, plan := OpenPart(t, dryRun, resume, env), PlanPart(t, dryRun, resume, env);
    var loop, precommit := LoopPart(h, t, dryRun, resume, env), PrecommitPart(resume, env);
    var triage := FinalTriage(h, t, dryRun, resume, env);
    var ship := ShipPart(t, dryRun, resume, triage);
    OpenSafe(h, demand, s, t, dryRun, resume, env);
    var s1 := Play(h, s, open.ops);
    if open.halt.None? {
      PlanSafe(h, demand, s1, t, dryRun, resume, env);
    }
    ThenSafe(h, demand, s, open, plan);
    var a := Then(open, plan);
    var s2 := Play(h, s, a.ops);
    if a.halt.None? {
      LoopStageSafe(h, demand, s2, t, dryRun, resume, env);
    }
    ThenSafe(h, demand, s, a, loop);
    var b := Then(a, loop);
    var s3 := Play(h, s, b.ops);
    if b.halt.None? {
      PrecommitSafe(h, demand, s3, dryRun, resume, env);
    }
    ThenSafe(h, demand, s, b, precommit);
    var c := Then(b, precommit);
    var s4 := Play(h, s, c.ops);
    if c.halt.None? {
      ShipSafe(h, demand, s4, t, dryRun, resume, triage);
    }
    ThenSafe(h, demand, s, c, ship);
  }
}
