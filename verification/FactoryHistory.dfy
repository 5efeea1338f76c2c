/** Histories of one task: commands at the command line, any of which may be killed part-way. */
module FactoryHistory {
  import opened Numeric
  import opened Reviews
  import opened Tasks
  import opened Stores
  import opened Pipeline
  import opened FactorySafety
  import L = ImplementLoop

  datatype Command =
    | RunTask(task: Task, dryRun: bool, env: Env)
    | Resume(task: Task, dryRun: bool, env: Env, specFound: bool)
    | Reject

  /** A command, and after how many of its writes the process was killed, if it was. */
  datatype Act = Act(command: Command, killedAfter: Option<nat>)

  predicate MayResume(row: Option<Row>, specFound: bool) {
    row.Some? && row.value.status == AwaitingApproval && row.value.awaiting.Some? && specFound
  }

  /** The writes a command makes when the row reads so. */
  function OpsOf(h: Heuristics, row: Option<Row>, c: Command): seq<Op> {
    match c
    case RunTask(t, dryRun, env) => Run(h, t, dryRun, None, env).ops
    case Resume(t, dryRun, env, specFound) =>
      if !MayResume(row, specFound) then [] else Run(h, t, dryRun, row.value.awaiting, env).ops
    case Reject =>
      if row.None? then [] else [SetAwaiting(Rejected, None), Append(CheckpointRejected)]
  }

  function Cut(ops: seq<Op>, killedAfter: Option<nat>): seq<Op> {
    if killedAfter.Some? && killedAfter.value < |ops| then ops[..killedAfter.value] else ops
  }

  function Journal(h: Heuristics, s: State, acts: seq<Act>): seq<Op>
    decreases |acts|
  {
    if acts == [] then []
    else
      var ops := Cut(OpsOf(h, s.row, acts[0].command), acts[0].killedAfter);
      ops + Journal(h, Play(h, s, ops), acts[1..])
  }

  // ---- the command line

  function ExitCode(end: End): int {
    if end == Returned(AwaitingApproval) then 2 else if end == Returned(Done) then 0 else 1
  }

  method RunCommand(store: Store, h: Heuristics, t: Task, dryRun: bool, env: Env) returns (code: int)
    requires store.Valid()
    modifies store
    ensures store.Valid() && store.journal == old(store.journal) + OpsOf(h, old(store.row), RunTask(t, dryRun, env))
    ensures Run(h, t, dryRun, None, env).halt.Some? && code == ExitCode(Run(h, t, dryRun, None, env).halt.value)
  {
    hide Run;
    var end, run, events := RunPipeline(store, h, t, dryRun, None, env);
    code := ExitCode(end);
  }

  /** `reject_task`: any existing row can be rejected, paused or not. */
  method RejectTask(store: Store)
    requires store.Valid()
    modifies store
    ensures store.Valid() && store.journal == old(store.journal) + [SetAwaiting(Rejected, None), Append(CheckpointRejected)]
    ensures store.row == if old(store.row).None? then None else Some(Row(Rejected, None, old(store.row).value.review))
    ensures store.events == old(store.events) + [CheckpointRejected]
  {
    store.UpdateAwaiting(Rejected, None);
    store.AppendEvent(CheckpointRejected);
  }

  /** `_run_resume`: refuses unless the row awaits approval at a checkpoint and the spec is found. */
  method RunResume(store: Store, h: Heuristics, t: Task, dryRun: bool, env: Env, specFound: bool, reject: bool) returns (code: int)
    requires store.Valid()
    modifies store
    ensures store.Valid()
    ensures store.journal == old(store.journal) + OpsOf(h, old(store.row), if reject then Command.Reject else Resume(t, dryRun, env, specFound))
    ensures !reject ==> code == if !MayResume(old(store.row), specFound) then 1
      else var halt := Run(h, t, dryRun, old(store.row).value.awaiting, env).halt; if halt.Some? then ExitCode(halt.value) else 1
    ensures reject ==> (code == 0 <==> old(store.row).Some?)
    // rejecting an existing row, paused or not, leaves it rejected without a checkpoint
    ensures reject && old(store.row).Some? ==>
      && store.row == Some(Row(Rejected, None, old(store.row).value.review))
      && store.events == old(store.events) + [CheckpointRejected]
    // and what cannot be resumed is left alone
    ensures old(store.row).None? ==> code == 1 && store.row == None && store.events == old(store.events)
    ensures old(store.row).Some? && !reject && !(specFound && old(store.row).value.status == AwaitingApproval && old(store.row).value.awaiting.Some?) ==>
      code == 1 && store.row == old(store.row) && store.events == old(store.events)
  {
    hide Run, Store.Valid;
    if store.row.None? {
      return 1;
    }
    if reject {
      RejectTask(store);
      return 0;
    }
    if store.row.value.status != AwaitingApproval || store.row.value.awaiting.None? {
      return 1;
    }
    if !specFound {
      return 1;
    }
    var end, run, events := RunPipeline(store, h, t, dryRun, store.row.value.awaiting, env);
    code := ExitCode(end);
  }

  lemma PlaySnoc(h: Heuristics, s: State, ops: seq<Op>, op: Op)
    ensures Play(h, s, ops + [op]) == After(h, Play(h, s, ops), op)
  {
    hide After;
    SafeConcat(h, VettedCommits, s, ops, [op]);
    SafeOne(h, VettedCommits, Play(h, s, ops), op);
  }

  /** The row the store holds is the row the vetting state tracks. */
  lemma {:induction false} RowsAgree(h: Heuristics, journal: seq<Op>)
    ensures Play(h, INITIAL, journal).row == RowOf(journal)
    decreases |journal|
  {
    hide CombinedStatus, MustPassOk;
    if journal != [] {
      var front, last := journal[..|journal| - 1], journal[|journal| - 1];
      RowsAgree(h, front);
      PlaySnoc(h, INITIAL, front, last);
      assert journal == front + [last];
    }
  }

  // ---- what vetted means, read off the journal

  /** A write that starts, judges or reviews an implementation. */
  predicate Reworks(op: Op) {
    op.SetReview? || (op.Append? && (op.event.ImplementDone? || op.event.ImplementFailed? || op.event.GatesDone?))
  }

  predicate PassingGates(op: Op) {
    op.Append? && op.event.GatesDone? && MustPassOk(op.event.outcomes)
  }

  ghost predicate NoReworkAfter(ops: seq<Op>, i: int) {
    forall k :: i < k < |ops| ==> k < 0 || !Reworks(ops[k])
  }

  /** The latest loop's last gates run had every must-pass gate ok, and nothing was reworked since. */
  ghost predicate GatesStand(ops: seq<Op>) {
    exists g :: 0 <= g < |ops| && PassingGates(ops[g]) && NoReworkAfter(ops, g)
  }

  /** ... and the review recorded right after it combined to CLEAN. */
  ghost predicate LoopEndedClean(h: Heuristics, ops: seq<Op>) {
    exists r :: 0 <= r < |ops| && ops[r].SetReview? && CombinedStatus(h, ops[r].text) == Clean
      && NoReworkAfter(ops, r) && GatesStand(ops[..r])
  }

  ghost predicate HardGatesAt(ops: seq<Op>, c: nat)
    requires c < |ops|
  {
    && ops[c] == Append(PrecommitDone(true))
    && forall k :: c < k < |ops| ==> !(ops[k].Append? && (ops[k].event.PipelineStart? || ops[k].event.PrecommitDone?))
  }

  /** The current invocation's pre-commit hard gates passed. */
  ghost predicate HardGatesPassed(ops: seq<Op>) {
    exists c :: 0 <= c < |ops| && HardGatesAt(ops, c)
  }

  lemma GatesStandStep(front: seq<Op>, last: Op)
    ensures GatesStand(front + [last]) <==> PassingGates(last) || (!Reworks(last) && GatesStand(front))
  {
    hide MustPassOk;
    var ops, n := front + [last], |front|;
    if PassingGates(last) {
      assert ops[n] == last && NoReworkAfter(ops, n);
    } else if !Reworks(last) && GatesStand(front) {
      var g :| 0 <= g < |front| && PassingGates(front[g]) && NoReworkAfter(front, g);
      assert ops[g] == front[g] && NoReworkAfter(ops, g);
    }
    if GatesStand(ops) {
      var g :| 0 <= g < |ops| && PassingGates(ops[g]) && NoReworkAfter(ops, g);
      if g < n {
        assert ops[n] == last;
        assert forall k :: 0 <= k < n ==> front[k] == ops[k];
        assert PassingGates(front[g]) && NoReworkAfter(front, g);
      }
    }
  }

  lemma CleanStep(h: Heuristics, front: seq<Op>, last: Op)
    ensures LoopEndedClean(h, front + [last]) <==>
      (last.SetReview? && CombinedStatus(h, last.text) == Clean && GatesStand(front)) || (!Reworks(last) && LoopEndedClean(h, front))
  {
    hide MustPassOk, CombinedStatus, GatesStand;
    var ops, n := front + [last], |front|;
    assert ops[..n] == front;
    if last.SetReview? && CombinedStatus(h, last.text) == Clean && GatesStand(front) {
      assert ops[n] == last && NoReworkAfter(ops, n);
    } else if !Reworks(last) && LoopEndedClean(h, front) {
      var r :| 0 <= r < |front| && front[r].SetReview? && CombinedStatus(h, front[r].text) == Clean && NoReworkAfter(front, r) && GatesStand(front[..r]);
      assert ops[r] == front[r] && NoReworkAfter(ops, r) && ops[..r] == front[..r];
    }
    if LoopEndedClean(h, ops) {
      var r :| 0 <= r < |ops| && ops[r].SetReview? && CombinedStatus(h, ops[r].text) == Clean && NoReworkAfter(ops, r) && GatesStand(ops[..r]);
      if r < n {
        assert ops[n] == last;
        assert forall k :: 0 <= k < n ==> front[k] == ops[k];
        assert NoReworkAfter(front, r) && ops[..r] == front[..r];
      }
    }
  }

  lemma HardGatesStep(front: seq<Op>, last: Op)
    ensures HardGatesPassed(front + [last]) <==>
      last == Append(PrecommitDone(true))
      || (!(last.Append? && (last.event.PipelineStart? || last.event.PrecommitDone?)) && HardGatesPassed(front))
  {
    var ops, n := front + [last], |front|;
    assert ops[n] == last && forall k :: 0 <= k < n ==> ops[k] == front[k];
    if HardGatesPassed(front) {
      var c :| 0 <= c < |front| && HardGatesAt(front, c);
      assert ops[c] == front[c];
      assert !(last.Append? && (last.event.PipelineStart? || last.event.PrecommitDone?)) ==> HardGatesAt(ops, c);
    }
    if HardGatesPassed(ops) {
      var c :| 0 <= c < |ops| && HardGatesAt(ops, c);
      assert c < n ==> HardGatesAt(front, c);
    }
    if last == Append(PrecommitDone(true)) {
      assert HardGatesAt(ops, n);
    }
  }

  /** The tracked vetting is exactly these facts about the journal. */
  lemma {:induction false} VettedIff(h: Heuristics, ops: seq<Op>)
    ensures Play(h, INITIAL, ops).vet.GatesPassed? <==> GatesStand(ops)
    ensures Play(h, INITIAL, ops).vet.Vetted? <==> LoopEndedClean(h, ops)
    ensures Play(h, INITIAL, ops).precommit <==> HardGatesPassed(ops)
    decreases |ops|
  {
    hide MustPassOk, CombinedStatus, Play;
    if ops == [] {
      assert Play(h, INITIAL, []) == INITIAL by { SafeEmpty(h, VettedCommits, INITIAL); }
    } else {
      var front, last := ops[..|ops| - 1], ops[|ops| - 1];
      assert ops == front + [last];
      VettedIff(h, front);
      PlaySnoc(h, INITIAL, front, last);
      GatesStandStep(front, last);
      CleanStep(h, front, last);
      HardGatesStep(front, last);
    }
  }

  // ---- safety over histories

  predicate Entitled(demand: Demand, c: Command) {
    !c.Reject? ==> (demand.NamingOnly? || EffectiveMaxPatchRounds(c.task) >= 0) && InMode(demand, c.dryRun)
  }

  lemma CommandSafe(h: Heuristics, demand: Demand, s: State, c: Command)
    requires Inv(demand, s) && Entitled(demand, c)
    ensures Safe(h, demand, s, OpsOf(h, s.row, c))
  {
    hide Run, Safe, Play;
    SafeEmpty(h, demand, s);
    match c
    case RunTask(t, dryRun, env) => RunSafe(h, demand, s, t, dryRun, None, env);
    case Resume(t, dryRun, env, specFound) =>
      if MayResume(s.row, specFound) {
        var checkpoint := s.row.value.awaiting.value;
        assert Awaits(s, checkpoint);
        assert checkpoint.PlanReview? || checkpoint.DiffReview? || checkpoint.PrePr?;
        RunSafe(h, demand, s, t, dryRun, Some(checkpoint), env);
      }
    case Reject => SafeTwo(h, demand, s, SetAwaiting(Rejected, None), Append(CheckpointRejected));
  }

  lemma CutSafe(h: Heuristics, demand: Demand, s: State, ops: seq<Op>, killedAfter: Option<nat>)
    requires Safe(h, demand, s, ops)
    ensures Safe(h, demand, s, Cut(ops, killedAfter))
  {
    hide Safe, Play;
    if killedAfter.Some? && killedAfter.value < |ops| {
      var n := killedAfter.value;
      SafeConcat(h, demand, s, ops[..n], ops[n..]);
      assert ops[..n] + ops[n..] == ops;
    }
  }

  /** Every history keeps the invariant after every write, and commits only what is vetted. */
  lemma {:induction false} HistorySafe(h: Heuristics, demand: Demand, s: State, acts: seq<Act>)
    requires Inv(demand, s) && forall i :: 0 <= i < |acts| ==> Entitled(demand, acts[i].command)
    ensures Safe(h, demand, s, Journal(h, s, acts))
    decreases |acts|
  {
    hide Safe, Play, OpsOf, Inv, Entitled, Cut;
    if acts == [] {
      SafeEmpty(h, demand, s);
    } else {
      var c := acts[0].command;
      var ops := Cut(OpsOf(h, s.row, c), acts[0].killedAfter);
      CommandSafe(h, demand, s, c);
      CutSafe(h, demand, s, OpsOf(h, s.row, c), acts[0].killedAfter);
      SafeEnd(h, demand, s, ops);
      assert forall i :: 0 <= i < |acts[1..]| ==> acts[1..][i] == acts[i + 1];
      HistorySafe(h, demand, Play(h, s, ops), acts[1..]);
      SafeConcat(h, demand, s, ops, Journal(h, Play(h, s, ops), acts[1..]));
    }
  }

  lemma SafeAt(h: Heuristics, demand: Demand, s: State, ops: seq<Op>, i: nat)
    requires Safe(h, demand, s, ops) && i < |ops|
    ensures Inv(demand, Play(h, s, ops[..i])) && CommitOk(demand, Play(h, s, ops[..i]), ops[i])
  {
    hide Safe, Play, Inv, CommitOk;
    var rest := ops[i + 1..];
    assert ops == ops[..i] + ([ops[i]] + rest);
    SafeConcat(h, demand, s, ops[..i], [ops[i]] + rest);
    SafeConcat(h, demand, Play(h, s, ops[..i]), [ops[i]], rest);
    SafeOne(h, demand, Play(h, s, ops[..i]), ops[i]);
  }

  predicate IsCommit(op: Op) {
    op.Append? && op.event.CommitDone?
  }

  /**
   * Over any history from an empty store, with any task file at each command, any kills, and any
   * dry_run flags: whenever a commit is recorded, the latest implement loop had ended with every
   * must-pass gate ok and a CLEAN combined review, and the invocation's hard gates had passed.
   */
  lemma CommitsAreVetted(h: Heuristics, acts: seq<Act>)
    requires forall k :: 0 <= k < |acts| ==> Entitled(VettedCommits, acts[k].command)
    ensures var journal := Journal(h, INITIAL, acts);
      forall i :: 0 <= i < |journal| && IsCommit(journal[i]) ==> LoopEndedClean(h, journal[..i]) && HardGatesPassed(journal[..i])
  {
    hide Safe, Play, Entitled, LoopEndedClean, HardGatesPassed, Journal;
    HistorySafe(h, VettedCommits, INITIAL, acts);
    var journal := Journal(h, INITIAL, acts);
    forall i | 0 <= i < |journal| && IsCommit(journal[i])
      ensures LoopEndedClean(h, journal[..i]) && HardGatesPassed(journal[..i])
    {
      SafeAt(h, VettedCommits, INITIAL, journal, i);
      VettedIff(h, journal[..i]);
    }
  }

  /** With one dry_run setting throughout, what a commit ships was vetted in that same setting. */
  lemma FixedModeCommits(h: Heuristics, mode: bool, acts: seq<Act>)
    requires forall k :: 0 <= k < |acts| ==> Entitled(Fixed(mode), acts[k].command)
    ensures var journal := Journal(h, INITIAL, acts);
      forall i :: 0 <= i < |journal| && IsCommit(journal[i]) ==>
        journal[i].event.dryRun == mode && Play(h, INITIAL, journal[..i]).vet == Vetted(mode)
  {
    hide Safe, Play, Entitled, Journal;
    HistorySafe(h, Fixed(mode), INITIAL, acts);
    var journal := Journal(h, INITIAL, acts);
    forall i | 0 <= i < |journal| && IsCommit(journal[i])
      ensures journal[i].event.dryRun == mode && Play(h, INITIAL, journal[..i]).vet == Vetted(mode)
    {
      SafeAt(h, Fixed(mode), INITIAL, journal, i);
    }
  }

  /** A row that awaits approval names its checkpoint, so the second half of the resume guard never decides. */
  lemma AwaitingNamesCheckpoint(h: Heuristics, acts: seq<Act>)
    ensures var row := RowOf(Journal(h, INITIAL, acts));
      row.Some? && row.value.status == AwaitingApproval ==> row.value.awaiting.Some?
  {
    hide Safe, Play, Journal, RowOf;
    HistorySafe(h, NamingOnly, INITIAL, acts);
    SafeEnd(h, NamingOnly, INITIAL, Journal(h, INITIAL, acts));
    RowsAgree(h, Journal(h, INITIAL, acts));
  }

  // ---- where the two conditions are needed

  /** An environment in which nothing goes wrong. */
  function GoodRound(): L.Round {
    L.Round(0, true, 0.0, true, i => true, [], 0, Replies(i => Reply(true, "", ""), i => Reply(true, "", "")))
  }

  function GoodEnv(): Env {
    Env(true, true, 0, true, true, k => GoodRound(), "", [])
  }

  lemma InitialKept()
    ensures Inv(VettedCommits, INITIAL)
  {
  }

  /** What the fallen-through loop stage is followed by. */
  function UnvettedTail(h: Heuristics, t: Task, dryRun: bool, resume: Option<Checkpoint>): seq<Op> {
    if DiffReview in t.checkpoints then PauseOps(DiffReview)
    else [Append(PrecommitDone(true))] + ShipPart(t, dryRun, resume, FinalTriage(h, t, dryRun, resume, GoodEnv())).ops
  }

  /** The plan stage's one log entry when nothing stops it. */
  function PlanEntry(resume: Option<Checkpoint>): Op {
    if resume == None then Append(PlanDone) else Append(CheckpointResumed(PlanReview))
  }

  lemma GoodBudget(t: Task)
    requires Loaded(t)
    ensures BudgetLimitHit(t, 0, 0, 0, 0.0).None?
  {
  }

  lemma NegativeCapRun(h: Heuristics, t: Task, dryRun: bool, resume: Option<Checkpoint>)
    requires Loaded(t) && EffectiveMaxPatchRounds(t) < 0
    requires resume == Some(PlanReview) || (resume == None && PlanReview !in t.checkpoints)
    ensures OpenPart(t, dryRun, resume, GoodEnv()).halt.None?
    ensures Run(h, t, dryRun, resume, GoodEnv()).ops
      == OpenPart(t, dryRun, resume, GoodEnv()).ops + [PlanEntry(resume)] + UnvettedTail(h, t, dryRun, resume)
  {
    hide L.LoopFrom, Loaded, FinalTriage, ShipPart, EffectiveMaxPatchRounds, BudgetLimitHit;
    GoodBudget(t);
    L.FallThrough(h, t, dryRun, GoodEnv().rounds, 0, L.START);
    assert LoopPart(h, t, dryRun, resume, GoodEnv()).ops == if DiffReview in t.checkpoints then PauseOps(DiffReview) else [];
  }

  lemma NoUnvettedPause(h: Heuristics, s: State)
    requires s.row.Some? && s.vet.Unvetted?
    ensures !Safe(h, VettedCommits, s, PauseOps(DiffReview))
  {
    hide Safe, Play;
    var op := SetAwaiting(AwaitingApproval, Some(DiffReview));
    var quiet := [Append(CheckpointPaused(DiffReview)), Append(Stop)];
    ThenQuiet(h, VettedCommits, s, op, quiet);
    assert PauseOps(DiffReview) == [op] + quiet;
    assert Awaits(After(h, s, op), DiffReview);
  }

  lemma NoUnvettedCommit(h: Heuristics, s: State, shipped: seq<Op>)
    requires s.vet.Unvetted? && |shipped| > 0 && shipped[0].Append? && shipped[0].event.CommitDone?
    ensures !Safe(h, VettedCommits, s, [Append(PrecommitDone(true))] + shipped)
  {
    hide Safe, Play, Inv;
    var pre := Append(PrecommitDone(true));
    SafeConcat(h, VettedCommits, s, [pre], shipped);
    SafeOne(h, VettedCommits, s, pre);
    var s1, rest := After(h, s, pre), shipped[1..];
    assert shipped == [shipped[0]] + rest;
    SafeConcat(h, VettedCommits, s1, [shipped[0]], rest);
    SafeOne(h, VettedCommits, s1, shipped[0]);
  }

  lemma NegativeCapUnsafe(h: Heuristics, t: Task, dryRun: bool, resume: Option<Checkpoint>)
    requires Loaded(t) && EffectiveMaxPatchRounds(t) < 0
    requires resume == Some(PlanReview) || (resume == None && PlanReview !in t.checkpoints)
    ensures !Safe(h, VettedCommits, INITIAL, Run(h, t, dryRun, resume, GoodEnv()).ops)
  {
    hide Safe, Play, Run, OpenPart, EffectiveMaxPatchRounds, Loaded, FinalTriage, Inv;
    var env := GoodEnv();
    var open, planned := OpenPart(t, dryRun, resume, env).ops, [PlanEntry(resume)];
    InitialKept();
    NegativeCapRun(h, t, dryRun, resume);
    OpenSafe(h, VettedCommits, INITIAL, t, dryRun, resume, env);
    var s1 := Play(h, INITIAL, open);
    SafeOne(h, VettedCommits, s1, PlanEntry(resume));
    SafeConcat(h, VettedCommits, INITIAL, open, planned);
    SafeConcat(h, VettedCommits, INITIAL, open + planned, UnvettedTail(h, t, dryRun, resume));
    if DiffReview in t.checkpoints {
      NoUnvettedPause(h, s1);
    } else {
      NoUnvettedCommit(h, s1, ShipPart(t, dryRun, resume, FinalTriage(h, t, dryRun, resume, env)).ops);
    }
  }

  /**
   * Resuming after plan_review is safe from every kept state and in every environment exactly when
   * the effective patch-round cap is not negative: below zero the loop body never runs and an
   * unvetted tree reaches the commit or the diff_review pause.
   */
  lemma ResumedPlanSafeIff(h: Heuristics, t: Task, dryRun: bool)
    requires Loaded(t)
    ensures (forall s, env :: Inv(VettedCommits, s) ==> Safe(h, VettedCommits, s, Run(h, t, dryRun, Some(PlanReview), env).ops)) <==>
      EffectiveMaxPatchRounds(t) >= 0
  {
    hide Run, Safe, Inv;
    if EffectiveMaxPatchRounds(t) >= 0 {
      forall s, env | Inv(VettedCommits, s)
        ensures Safe(h, VettedCommits, s, Run(h, t, dryRun, Some(PlanReview), env).ops)
      {
        RunSafe(h, VettedCommits, s, t, dryRun, Some(PlanReview), env);
      }
    } else {
      NegativeCapUnsafe(h, t, dryRun, Some(PlanReview));
      InitialKept();
    }
  }

  /** A fresh run with the plan_review checkpoint ends at the plan, one way or another. */
  lemma PausedRunSafe(h: Heuristics, s: State, t: Task, dryRun: bool, env: Env)
    requires Inv(VettedCommits, s) && PlanReview in t.checkpoints
    ensures Safe(h, VettedCommits, s, Run(h, t, dryRun, None, env).ops)
  {
    hide Safe, Play, Inv, OpenPart, StoredAtEnd, LoopPart, PrecommitPart, ShipPart, FinalTriage;
    var open, plan := OpenPart(t, dryRun, None, env), PlanPart(t, dryRun, None, env);
    OpenSafe(h, VettedCommits, s, t, dryRun, None, env);
    if open.halt.None? {
      PlanSafe(h, VettedCommits, Play(h, s, open.ops), t, dryRun, None, env);
    }
    ThenSafe(h, VettedCommits, s, open, plan);
    assert Run(h, t, dryRun, None, env).ops == Then(open, plan).ops;
  }

  /** A fresh run is also safe with a negative cap when it pauses at plan_review first, and only then. */
  lemma FreshRunSafeIff(h: Heuristics, t: Task, dryRun: bool)
    requires Loaded(t)
    ensures (forall s, env :: Inv(VettedCommits, s) ==> Safe(h, VettedCommits, s, Run(h, t, dryRun, None, env).ops)) <==>
      EffectiveMaxPatchRounds(t) >= 0 || PlanReview in t.checkpoints
  {
    hide Run, Safe, Inv;
    if EffectiveMaxPatchRounds(t) >= 0 || PlanReview in t.checkpoints {
      forall s, env | Inv(VettedCommits, s)
        ensures Safe(h, VettedCommits, s, Run(h, t, dryRun, None, env).ops)
      {
        if EffectiveMaxPatchRounds(t) >= 0 {
          RunSafe(h, VettedCommits, s, t, dryRun, None, env);
        } else {
          PausedRunSafe(h, s, t, dryRun, env);
        }
      }
    } else {
      NegativeCapUnsafe(h, t, dryRun, None);
      InitialKept();
    }
  }

  predicate CommitsIn(ops: seq<Op>, dryRun: bool) {
    Append(CommitDone(dryRun)) in ops
  }

  lemma ThenCommits(a: Part, b: Part, d: bool)
    ensures CommitsIn(Then(a, b).ops, d) <==> CommitsIn(a.ops, d) || (a.halt.None? && CommitsIn(b.ops, d))
  {
  }

  lemma StagesNeverCommit(t: Task, dryRun: bool, c: Checkpoint, env: Env, d: bool)
    ensures !CommitsIn(WorktreePart(dryRun, Some(c), env).ops, d)
    ensures !CommitsIn(BudgetPart(t, env).ops, d)
    ensures !CommitsIn(PrecommitPart(Some(c), env).ops, d)
    ensures !CommitsIn([], d)
  {
    hide BudgetLimitHit, L.Checks, Findings;
  }

  lemma WorktreeHalts(t: Task, dryRun: bool, resume: Option<Checkpoint>, env: Env)
    ensures WorktreePart(dryRun, resume, env).halt.None? <==> dryRun || env.worktreeOk
    ensures BudgetPart(t, env).halt.None? <==> BudgetLimitHit(t, env.elapsedPlan, 0, 0, 0.0).None?
    ensures PrecommitPart(resume, env).halt.None? <==> env.findings == []
  {
  }

  lemma ResumedVetting(h: Heuristics, t: Task, dryRun: bool, c: Checkpoint, env: Env, d: bool)
    requires c != PlanReview
    ensures !CommitsIn(Vetting(h, t, dryRun, Some(c), env).ops, d)
    ensures Vetting(h, t, dryRun, Some(c), env).halt.None? <==>
      (dryRun || env.worktreeOk) && BudgetLimitHit(t, env.elapsedPlan, 0, 0, 0.0).None? && env.findings == []
  {
    hide WorktreePart, BudgetPart, PrecommitPart, BudgetLimitHit, CommitsIn;
    var open, nothing := OpenPart(t, dryRun, Some(c), env), Part([], [], None);
    StagesNeverCommit(t, dryRun, c, env, d);
    ThenCommits(WorktreePart(dryRun, Some(c), env), BudgetPart(t, env), d);
    assert PlanPart(t, dryRun, Some(c), env) == nothing == LoopPart(h, t, dryRun, Some(c), env);
    ThenCommits(open, nothing, d);
    ThenCommits(Then(open, nothing), nothing, d);
    ThenCommits(Then(Then(open, nothing), nothing), PrecommitPart(Some(c), env), d);
    WorktreeHalts(t, dryRun, Some(c), env);
  }

  lemma ShipCommitsOnce(t: Task, dryRun: bool, c: Checkpoint, triage: Triage, d: bool)
    ensures CommitsIn(ShipPart(t, dryRun, Some(c), triage).ops, d) <==> d == dryRun
  {
    assert ShipPart(t, dryRun, Some(c), triage).ops[0] == Append(CommitDone(dryRun));
  }

  /**
   * Resuming past the loop: the invocation commits in a mode other than the one its vetting was
   * done in exactly when it reaches the commit with the other dry_run flag. So a real resume
   * commits what only a dry run has vetted.
   */
  lemma MismatchedCommitIff(h: Heuristics, s: State, t: Task, dryRun: bool, c: Checkpoint, env: Env)
    requires Awaits(s, c) && c != PlanReview && Inv(VettedCommits, s)
    ensures Append(CommitDone(!s.vet.dryRun)) in OpsOf(h, s.row, Resume(t, dryRun, env, true)) <==>
      && dryRun != s.vet.dryRun && (dryRun || env.worktreeOk)
      && BudgetLimitHit(t, env.elapsedPlan, 0, 0, 0.0).None? && env.findings == []
  {
    hide BudgetLimitHit, FinalTriage, Vetting, ShipPart;
    var v, triage := Vetting(h, t, dryRun, Some(c), env), FinalTriage(h, t, dryRun, Some(c), env);
    ResumedVetting(h, t, dryRun, c, env, !s.vet.dryRun);
    ShipCommitsOnce(t, dryRun, c, triage, !s.vet.dryRun);
    assert !CommitsIn(v.ops, !s.vet.dryRun);
    if v.halt.None? {
      var shipped := ShipPart(t, dryRun, Some(c), triage).ops;
      assert CommitsIn(v.ops + shipped, !s.vet.dryRun) <==> CommitsIn(shipped, !s.vet.dryRun);
    }
  }

  /** A task that pauses at diff_review only, with reviews disabled and every gate named. */
  ghost predicate PausesAtDiff(t: Task) {
    && Loaded(t) && EffectiveMaxPatchRounds(t) >= 0 && t.panel.reviewers == []
    && DiffReview in t.checkpoints && PlanReview !in t.checkpoints
    && forall i :: 0 <= i < |t.gates| ==> t.gates[i].name != ""
  }

  lemma StubbedNamed(gates: seq<Gate>)
    requires forall i :: 0 <= i < |gates| ==> gates[i].name != ""
    ensures L.AllNamed(L.Stubbed(gates))
  {
  }

  lemma CapOf(t: Task)
    requires PausesAtDiff(t)
    ensures EffectiveMaxPatchRounds(t) >= 0
  {
  }

  lemma DryRoundReviewed(h: Heuristics, t: Task)
    requires PausesAtDiff(t)
    ensures var g := L.RoundStep(h, t, true, 0, GoodRound(), L.START); g.end.Some? && g.end.value.Reviewed?
  {
    hide CombinedStatus, L.Checks, L.Stubbed, MustPassOk, L.AllNamed, Loaded, BudgetLimitHit;
    GoodBudget(t);
    StubbedNamed(t.gates);
    L.StubbedOk(t.gates);
    DisabledReviewIsClean(h);
  }

  lemma DryLoopReviewed(h: Heuristics, t: Task)
    requires PausesAtDiff(t)
    ensures var g := L.Loop(h, t, true, GoodEnv().rounds); g.end.Some? && g.end.value.Reviewed?
  {
    hide L.LoopFrom, L.RoundStep, PausesAtDiff, EffectiveMaxPatchRounds;
    CapOf(t);
    DryRoundReviewed(h, t);
    L.Unroll(h, t, true, GoodEnv().rounds, 0, L.START);
  }

  lemma OpensWell(t: Task)
    requires Loaded(t)
    ensures OpenPart(t, true, None, GoodEnv()).halt.None?
  {
  }

  /** The dry run pauses at diff_review with a vetting that no gate or reviewer took part in. */
  lemma DryRunPauses(h: Heuristics, t: Task)
    requires PausesAtDiff(t)
    ensures var s := Play(h, INITIAL, Run(h, t, true, None, GoodEnv()).ops);
      Awaits(s, DiffReview) && s.vet == Vetted(true)
  {
    hide Play, Safe, L.Loop, OpenPart, Loaded;
    var env := GoodEnv();
    var ops := Run(h, t, true, None, env).ops;
    GoodBudget(t);
    DryLoopReviewed(h, t);
    assert OpenPart(t, true, None, env).halt.None? by { OpensWell(t); }
    var before := OpenPart(t, true, None, env).ops + [Append(PlanDone)] + L.Loop(h, t, true, env.rounds).ops;
    assert ops == before + PauseOps(DiffReview);
    InitialKept();
    assert Inv(Fixed(true), INITIAL);
    RunSafe(h, Fixed(true), INITIAL, t, true, None, env);
    SafeEnd(h, Fixed(true), INITIAL, ops);
    SafeConcat(h, Fixed(true), INITIAL, before, PauseOps(DiffReview));
    var s := Play(h, INITIAL, before);
    ThenQuiet(h, VettedCommits, s, SetAwaiting(AwaitingApproval, Some(DiffReview)), [Append(CheckpointPaused(DiffReview)), Append(Stop)]);
    assert PauseOps(DiffReview) == [SetAwaiting(AwaitingApproval, Some(DiffReview))] + [Append(CheckpointPaused(DiffReview)), Append(Stop)];
  }

  /**
   * A dry run that pauses at diff_review, then a resume without the dry_run flag: the history
   * records a real commit although only the dry run's stubs vetted it.
   */
  lemma DryPauseRealCommit(h: Heuristics, t: Task)
    requires PausesAtDiff(t)
    ensures var dry := Run(h, t, true, None, GoodEnv()).ops;
      && Journal(h, INITIAL, [Act(RunTask(t, true, GoodEnv()), None), Act(Resume(t, false, GoodEnv(), true), None)])
         == dry + OpsOf(h, Play(h, INITIAL, dry).row, Resume(t, false, GoodEnv(), true))
      && Play(h, INITIAL, dry).vet == Vetted(true)
      && CommitsIn(OpsOf(h, Play(h, INITIAL, dry).row, Resume(t, false, GoodEnv(), true)), false)
  {
    hide Run, Play, Safe, Loaded;
    var env := GoodEnv();
    var dry := Run(h, t, true, None, env).ops;
    var s := Play(h, INITIAL, dry);
    DryRunPauses(h, t);
    GoodBudget(t);
    assert Inv(VettedCommits, s);
    MismatchedCommitIff(h, s, t, false, DiffReview, env);
    var acts := [Act(RunTask(t, true, env), None), Act(Resume(t, false, env, true), None)];
    var resumed := OpsOf(h, s.row, acts[1].command);
    assert acts[1..] == [acts[1]] && acts[1..][1..] == [];
    assert Journal(h, s, acts[1..]) == resumed + Journal(h, Play(h, s, resumed), []);
    assert Journal(h, s, acts[1..]) == resumed;
  }
}
