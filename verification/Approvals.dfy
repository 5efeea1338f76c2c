/** Human approval over histories: what a checkpoint guards happens only after someone resumed it. */
module Approvals {
  import opened Numeric
  import opened Reviews
  import opened Tasks
  import opened Stores
  import opened Pipeline
  import opened FactorySafety
  import opened FactoryHistory
  import L = ImplementLoop

  // ---- reading approval off a journal

  /** The write by which a run pauses at c: the row that a later resume reads. */
  function PauseWrite(c: Checkpoint): Op {
    SetAwaiting(AwaitingApproval, Some(c))
  }

  /** What a checkpoint guards: the implementation, the commit, the end of the run. */
  predicate Guarded(c: Checkpoint, op: Op) {
    match c
    case PlanReview => op.Append? && (op.event.ImplementDone? || op.event.ImplementFailed?)
    case DiffReview => op.Append? && op.event.CommitDone?
    case PrePr => op == SetAwaiting(Done, None) || (op.Append? && op.event.PipelineDone?)
  }

  /** What voids a request or an approval: a rejection, a new plan for plan_review, new work for the other two. */
  predicate Voids(c: Checkpoint, op: Op) {
    || op == SetAwaiting(Rejected, None)
    || (if c == PlanReview then op.Append? && (op.event.PlanDone? || op.event.PlanFailed?) else Reworks(op))
  }

  /** plan_review and pre_pr are resumed in the very run they let go on; diff_review may have been in an earlier one. */
  predicate Outlived(c: Checkpoint, op: Op) {
    c != DiffReview && op.Append? && op.event.PipelineStart?
  }

  /** The run paused at p, nothing has voided that since, and r is the resume. */
  ghost predicate ApprovedBy(c: Checkpoint, ops: seq<Op>, p: nat, r: nat) {
    && p < r < |ops| && ops[p] == PauseWrite(c) && ops[r] == Append(CheckpointResumed(c))
    && (forall k :: p < k < |ops| ==> !Voids(c, ops[k]))
    && (forall k :: r < k < |ops| ==> !Outlived(c, ops[k]))
  }

  ghost predicate Approved(c: Checkpoint, ops: seq<Op>) {
    exists p: nat, r: nat :: ApprovedBy(c, ops, p, r)
  }

  ghost predicate AskedAt(c: Checkpoint, ops: seq<Op>, p: nat) {
    p < |ops| && ops[p] == PauseWrite(c) && forall k :: p < k < |ops| ==> !Voids(c, ops[k])
  }

  ghost predicate Asked(c: Checkpoint, ops: seq<Op>) {
    exists p: nat :: AskedAt(c, ops, p)
  }

  // ---- the same, tracked write by write

  datatype Mark = Unasked | Waiting | Given

  datatype Watch = Watch(row: Option<Row>, mark: Mark)

  const NOTHING: Watch := Watch(None, Unasked)

  function MarkAfter(c: Checkpoint, mark: Mark, op: Op): Mark {
    if op == PauseWrite(c) then Waiting
    else if Voids(c, op) then Unasked
    else if op == Append(CheckpointResumed(c)) && mark == Waiting then Given
    else if Outlived(c, op) && mark == Given then Unasked
    else mark
  }

  function WatchAfter(c: Checkpoint, w: Watch, op: Op): Watch {
    Watch(RowAfter(w.row, op), MarkAfter(c, w.mark, op))
  }

  function Watched(c: Checkpoint, w: Watch, ops: seq<Op>): Watch
    decreases |ops|
  {
    if ops == [] then w else Watched(c, WatchAfter(c, w, ops[0]), ops[1..])
  }

  predicate RowAwaits(row: Option<Row>, c: Checkpoint) {
    row.Some? && row.value.status == AwaitingApproval && row.value.awaiting == Some(c)
  }

  /** A row paused at c has been asked about; past diff_review, a row paused at pre_pr has been approved. */
  predicate Kept(c: Checkpoint, w: Watch) {
    && (RowAwaits(w.row, c) ==> w.mark == Waiting)
    && (c == DiffReview && RowAwaits(w.row, PrePr) ==> w.mark == Given)
  }

  predicate Sound(c: Checkpoint, w: Watch, ops: seq<Op>)
    decreases |ops|
  {
    Kept(c, w) && (ops == [] || ((Guarded(c, ops[0]) ==> w.mark == Given) && Sound(c, WatchAfter(c, w, ops[0]), ops[1..])))
  }

  lemma {:induction false} SoundConcat(c: Checkpoint, w: Watch, a: seq<Op>, b: seq<Op>)
    ensures Watched(c, w, a + b) == Watched(c, Watched(c, w, a), b)
    ensures Sound(c, w, a + b) <==> Sound(c, w, a) && Sound(c, Watched(c, w, a), b)
    decreases |a|
  {
    hide WatchAfter, Kept, Guarded;
    if a == [] {
      assert a + b == b;
      assert Sound(c, w, b) ==> Kept(c, w);
    } else {
      assert (a + b)[1..] == a[1..] + b;
      SoundConcat(c, WatchAfter(c, w, a[0]), a[1..], b);
    }
  }

  lemma SoundOne(c: Checkpoint, w: Watch, a: Op)
    ensures Watched(c, w, [a]) == WatchAfter(c, w, a)
    ensures Sound(c, w, [a]) <==> Kept(c, w) && (Guarded(c, a) ==> w.mark == Given) && Kept(c, WatchAfter(c, w, a))
  {
    hide WatchAfter, Kept, Guarded;
    assert [a][1..] == [];
    assert Sound(c, WatchAfter(c, w, a), []) <==> Kept(c, WatchAfter(c, w, a));
  }

  lemma {:induction false} SoundEnd(c: Checkpoint, w: Watch, ops: seq<Op>)
    requires Sound(c, w, ops)
    ensures Kept(c, Watched(c, w, ops))
    decreases |ops|
  {
    if ops != [] {
      SoundEnd(c, WatchAfter(c, w, ops[0]), ops[1..]);
    }
  }

  lemma WatchedSnoc(c: Checkpoint, w: Watch, ops: seq<Op>, op: Op)
    ensures Watched(c, w, ops + [op]) == WatchAfter(c, Watched(c, w, ops), op)
  {
    hide WatchAfter;
    SoundConcat(c, w, ops, [op]);
    SoundOne(c, Watched(c, w, ops), op);
  }

  lemma AskedSnoc(c: Checkpoint, front: seq<Op>, last: Op)
    ensures last == PauseWrite(c) ==> Asked(c, front + [last])
    ensures Asked(c, front) && !Voids(c, last) ==> Asked(c, front + [last])
  {
    hide Voids;
    var ops := front + [last];
    if last == PauseWrite(c) {
      assert AskedAt(c, ops, |front|);
    }
    if Asked(c, front) && !Voids(c, last) {
      var p: nat :| AskedAt(c, front, p);
      assert AskedAt(c, ops, p);
    }
  }

  lemma ApprovedSnoc(c: Checkpoint, front: seq<Op>, last: Op)
    ensures Asked(c, front) && last == Append(CheckpointResumed(c)) ==> Approved(c, front + [last])
    ensures Approved(c, front) && !Voids(c, last) && !Outlived(c, last) ==> Approved(c, front + [last])
  {
    hide Outlived;
    var ops := front + [last];
    if Asked(c, front) && last == Append(CheckpointResumed(c)) {
      var p: nat :| AskedAt(c, front, p);
      assert ApprovedBy(c, ops, p, |front|);
    }
    if Approved(c, front) && !Voids(c, last) && !Outlived(c, last) {
      var p: nat, r: nat :| ApprovedBy(c, front, p, r);
      assert ApprovedBy(c, ops, p, r);
    }
  }

  lemma NothingWatched(c: Checkpoint, w: Watch)
    ensures Watched(c, w, []) == w
    ensures Sound(c, w, []) <==> Kept(c, w)
  {
  }

  /** A mark is only ever given for an approval in the journal. */
  lemma {:induction false} MarkMeans(c: Checkpoint, ops: seq<Op>)
    ensures Watched(c, NOTHING, ops).mark == Waiting ==> Asked(c, ops)
    ensures Watched(c, NOTHING, ops).mark == Given ==> Approved(c, ops)
    decreases |ops|
  {
    hide Watched, Voids, Outlived, Asked, Approved;
    if ops == [] {
      NothingWatched(c, NOTHING);
    } else {
      var front, last := ops[..|ops| - 1], ops[|ops| - 1];
      assert ops == front + [last];
      MarkMeans(c, front);
      WatchedSnoc(c, NOTHING, front, last);
      AskedSnoc(c, front, last);
      ApprovedSnoc(c, front, last);
    }
  }

  // ---- one invocation, stage by stage

  /** The task pauses at c whenever it gets there. */
  predicate PausesAt(c: Checkpoint, t: Task) {
    c in t.checkpoints && (c == PrePr ==> t.prOpen)
  }

  predicate RowRuns(w: Watch) {
    w.row.Some? && w.row.value.status == Status.Running
  }

  lemma SoundTwo(c: Checkpoint, w: Watch, a: Op, b: Op)
    ensures var w1 := WatchAfter(c, w, a); var w2 := WatchAfter(c, w1, b);
      && Watched(c, w, [a, b]) == w2
      && (Sound(c, w, [a, b]) <==>
           Kept(c, w) && (Guarded(c, a) ==> w.mark == Given) && Kept(c, w1) && (Guarded(c, b) ==> w1.mark == Given) && Kept(c, w2))
  {
    hide WatchAfter, Kept, Guarded;
    assert [a, b] == [a] + [b];
    SoundConcat(c, w, [a], [b]);
    SoundOne(c, w, a);
    SoundOne(c, WatchAfter(c, w, a), b);
  }

  lemma SoundThree(c: Checkpoint, w: Watch, a: Op, b: Op, d: Op)
    ensures var w2 := WatchAfter(c, WatchAfter(c, w, a), b);
      && Watched(c, w, [a, b, d]) == WatchAfter(c, w2, d)
      && (Sound(c, w, [a, b, d]) <==> Sound(c, w, [a, b]) && (Guarded(c, d) ==> w2.mark == Given) && Kept(c, WatchAfter(c, w2, d)))
  {
    hide WatchAfter, Kept, Guarded;
    assert [a, b, d] == [a, b] + [d];
    SoundConcat(c, w, [a, b], [d]);
    SoundTwo(c, w, a, b);
    SoundOne(c, WatchAfter(c, WatchAfter(c, w, a), b), d);
    assert Sound(c, w, [a, b]) ==> Kept(c, WatchAfter(c, WatchAfter(c, w, a), b));
  }

  /** Where the invocation starts: resumed at the checkpoint the row awaits. */
  predicate Begins(c: Checkpoint, w: Watch, resume: Option<Checkpoint>) {
    Kept(c, w) && (resume.Some? ==> RowAwaits(w.row, resume.value))
  }

  /** Once open, the row runs, and what was asked or approved before the resume still is. */
  predicate Opened(c: Checkpoint, w: Watch, resume: Option<Checkpoint>) {
    RowRuns(w) && (resume == Some(c) ==> w.mark == Waiting) && (c == DiffReview && resume == Some(PrePr) ==> w.mark == Given)
  }

  lemma WorktreeSound(c: Checkpoint, w: Watch, dryRun: bool, resume: Option<Checkpoint>, env: Env)
    requires Begins(c, w, resume)
    ensures var p := WorktreePart(dryRun, resume, env);
      Sound(c, w, p.ops) && (p.halt.None? ==> Opened(c, Watched(c, w, p.ops), resume))
  {
    hide Sound, Watched;
    var start := Append(PipelineStart(dryRun, resume));
    var opening := [Upsert, start];
    var p := WorktreePart(dryRun, resume, env);
    var w1 := WatchAfter(c, WatchAfter(c, w, Upsert), start);
    SoundTwo(c, w, Upsert, start);
    if p.halt.Some? {
      SoundTwo(c, w1, Append(WorktreeError), SetStatus(FailedStatus));
      SoundThree(c, w1, Append(WorktreeError), SetStatus(FailedStatus), Append(Stop));
      SoundConcat(c, w, opening, [Append(WorktreeError), SetStatus(FailedStatus), Append(Stop)]);
    } else {
      var ready := Append(if dryRun then WorktreeSkipped else WorktreeReady);
      SoundTwo(c, w1, ready, SetAwaiting(Status.Running, None));
      SoundConcat(c, w, opening, [ready, SetAwaiting(Status.Running, None)]);
    }
  }

  lemma StopSound(c: Checkpoint, w: Watch, status: Status)
    requires RowRuns(w) && status in {Blocked, FailedStatus}
    ensures Sound(c, w, [SetStatus(status), Append(Stop)])
    ensures Sound(c, w, [SetStatus(status), Append(PlanFailed), Append(Stop)])
  {
    hide Sound, Watched;
    SoundTwo(c, w, SetStatus(status), Append(Stop));
    SoundTwo(c, w, SetStatus(status), Append(PlanFailed));
    SoundThree(c, w, SetStatus(status), Append(PlanFailed), Append(Stop));
  }

  lemma OpenedRuns(c: Checkpoint, w: Watch, resume: Option<Checkpoint>)
    requires Opened(c, w, resume)
    ensures RowRuns(w) && Kept(c, w)
  {
  }

  lemma OpenSound(c: Checkpoint, w: Watch, t: Task, dryRun: bool, resume: Option<Checkpoint>, env: Env)
    requires Begins(c, w, resume)
    ensures var p := OpenPart(t, dryRun, resume, env);
      Sound(c, w, p.ops) && (p.halt.None? ==> Opened(c, Watched(c, w, p.ops), resume))
  {
    hide Sound, Watched, WorktreePart, BudgetLimitHit, Opened, Kept;
    var a, b := WorktreePart(dryRun, resume, env), BudgetPart(t, env);
    WorktreeSound(c, w, dryRun, resume, env);
    SoundConcat(c, w, a.ops, b.ops);
    if a.halt.None? {
      var w1 := Watched(c, w, a.ops);
      OpenedRuns(c, w1, resume);
      StopSound(c, w1, Blocked);
      NothingWatched(c, w1);
    }
  }

  /** Pausing is sound from a running row; past diff_review the pause at pre_pr needs the approval. */
  lemma PauseSound(c: Checkpoint, w: Watch, at: Checkpoint)
    requires RowRuns(w) && (c == DiffReview && at == PrePr ==> w.mark == Given)
    ensures Sound(c, w, PauseOps(at))
  {
    hide Sound, Watched;
    SoundTwo(c, w, PauseWrite(at), Append(CheckpointPaused(at)));
    SoundThree(c, w, PauseWrite(at), Append(CheckpointPaused(at)), Append(Stop));
  }

  /** With a plan in hand: if c is plan_review, approved before any implementation. */
  predicate HasPlan(c: Checkpoint, w: Watch, resume: Option<Checkpoint>) {
    if c == PlanReview then RowRuns(w) && (RunsLoop(resume) ==> w.mark == Given) else Opened(c, w, resume)
  }

  lemma PlanSound(c: Checkpoint, w: Watch, t: Task, dryRun: bool, resume: Option<Checkpoint>, env: Env)
    requires Opened(c, w, resume) && PausesAt(c, t)
    ensures var p := PlanPart(t, dryRun, resume, env);
      Sound(c, w, p.ops) && (p.halt.None? ==> HasPlan(c, Watched(c, w, p.ops), resume))
  {
    hide Sound, Watched;
    NothingWatched(c, w);
    StopSound(c, w, FailedStatus);
    SoundOne(c, w, Append(PlanDone));
    SoundOne(c, w, Append(CheckpointResumed(PlanReview)));
    SoundConcat(c, w, [Append(PlanDone)], PauseOps(PlanReview));
    PauseSound(c, WatchAfter(c, w, Append(PlanDone)), PlanReview);
  }

  /** The writes of an implement loop. */
  predicate LoopOp(op: Op) {
    || op == SetStatus(Blocked) || op == SetStatus(FailedStatus) || op.SetReview?
    || (op.Append? && (op.event.ImplementDone? || op.event.ImplementFailed? || op.event.GatesDone? || op.event.GatesFailed? || op.event.BudgetExhausted?))
  }

  lemma RoundOps(h: Heuristics, t: Task, dryRun: bool, k: nat, r: L.Round, v: L.Locals)
    ensures forall i :: 0 <= i < |L.RoundStep(h, t, dryRun, k, r, v).ops| ==> LoopOp(L.RoundStep(h, t, dryRun, k, r, v).ops[i])
  {
    hide MustPassOk, ReviewText, CombinedStatus, L.RoundOutcomes, L.AllNamed, L.Checks, BudgetLimitHit, EffectiveMaxPatchRounds;
    var gates := L.GateStep(t, dryRun, k, r, v);
    var review := L.ReviewStep(h, t, dryRun, k, r, gates.locals);
    assert forall i :: 0 <= i < |gates.ops| ==> LoopOp(gates.ops[i]);
    assert forall i :: 0 <= i < |review.ops| ==> LoopOp(review.ops[i]);
  }

  lemma {:induction false} LoopOps(h: Heuristics, t: Task, dryRun: bool, rounds: nat -> L.Round, k: nat, v: L.Locals)
    ensures var ops := L.LoopFrom(h, t, dryRun, rounds, k, v).ops; forall i :: 0 <= i < |ops| ==> LoopOp(ops[i])
    decreases EffectiveMaxPatchRounds(t) + 1 - k
  {
    hide L.RoundStep, L.LoopFrom, EffectiveMaxPatchRounds, LoopOp;
    if k > EffectiveMaxPatchRounds(t) {
      L.FallThrough(h, t, dryRun, rounds, k, v);
    } else {
      L.Unroll(h, t, dryRun, rounds, k, v);
      RoundOps(h, t, dryRun, k, rounds(k), v);
      LoopOps(h, t, dryRun, rounds, k + 1, L.RoundStep(h, t, dryRun, k, rounds(k), v).locals);
    }
  }

  predicate RowActive(w: Watch) {
    w.row.Some? && w.row.value.status != AwaitingApproval
  }

  lemma {:induction false} LoopOpsSound(c: Checkpoint, w: Watch, ops: seq<Op>)
    requires RowActive(w) && (c == PlanReview ==> w.mark == Given)
    requires forall i :: 0 <= i < |ops| ==> LoopOp(ops[i])
    ensures var w' := Watched(c, w, ops);
      Sound(c, w, ops) && RowActive(w') && (c == PlanReview ==> w'.mark == Given)
    decreases |ops|
  {
    hide Reworks;
    if ops != [] {
      assert LoopOp(ops[0]);
      LoopOpsSound(c, WatchAfter(c, w, ops[0]), ops[1..]);
    }
  }

  /** Past the loop: c is not a diff_review about to be paused at, and a resume at c or past it is still good. */
  predicate PastLoop(c: Checkpoint, w: Watch, resume: Option<Checkpoint>) {
    && RowRuns(w)
    && (c == DiffReview ==> !RunsLoop(resume))
    && (c != PlanReview && resume == Some(c) ==> w.mark == Waiting)
    && (c == DiffReview && resume == Some(PrePr) ==> w.mark == Given)
  }

  lemma StopActive(c: Checkpoint, w: Watch)
    requires RowActive(w)
    ensures Sound(c, w, [Append(Stop)])
  {
    SoundOne(c, w, Append(Stop));
  }

  lemma ActivePause(c: Checkpoint, w: Watch)
    requires RowActive(w)
    ensures Sound(c, w, PauseOps(DiffReview))
  {
    hide Sound, Watched;
    SoundTwo(c, w, PauseWrite(DiffReview), Append(CheckpointPaused(DiffReview)));
    SoundThree(c, w, PauseWrite(DiffReview), Append(CheckpointPaused(DiffReview)), Append(Stop));
  }

  lemma {:induction false} RowsFollow(h: Heuristics, c: Checkpoint, s: State, w: Watch, ops: seq<Op>)
    requires s.row == w.row
    ensures Play(h, s, ops).row == Watched(c, w, ops).row
    decreases |ops|
  {
    hide CombinedStatus, MustPassOk, MarkAfter;
    if ops != [] {
      RowsFollow(h, c, After(h, s, ops[0]), WatchAfter(c, w, ops[0]), ops[1..]);
    }
  }

  /** A loop that is reviewed leaves the row running. */
  lemma ReviewedRuns(h: Heuristics, t: Task, dryRun: bool, c: Checkpoint, w: Watch, rounds: nat -> L.Round)
    requires RowRuns(w)
    ensures var g := L.Loop(h, t, dryRun, rounds);
      g.end.Some? && (g.end.value.Reviewed? ==> RowRuns(Watched(c, w, g.ops)))
  {
    hide Play, Safe, Watched, L.LoopFrom, EffectiveMaxPatchRounds;
    var s := State(w.row, dryRun, Unvetted, false);
    LoopSafe(h, NamingOnly, s, t, dryRun, rounds, 0, L.START);
    RowsFollow(h, c, s, w, L.Loop(h, t, dryRun, rounds).ops);
  }

  lemma LoopStageSound(h: Heuristics, c: Checkpoint, w: Watch, t: Task, dryRun: bool, resume: Option<Checkpoint>, env: Env)
    requires HasPlan(c, w, resume) && PausesAt(c, t)
    ensures var p := LoopPart(h, t, dryRun, resume, env);
      Sound(c, w, p.ops) && (p.halt.None? ==> PastLoop(c, Watched(c, w, p.ops), resume))
  {
    hide Sound, Watched, L.LoopFrom, PauseOps, WatchAfter, LoopOp;
    NothingWatched(c, w);
    if RunsLoop(resume) {
      var g := L.Loop(h, t, dryRun, env.rounds);
      L.LoopStarts(h, t, dryRun, env.rounds);
      LoopOps(h, t, dryRun, env.rounds, 0, L.START);
      LoopOpsSound(c, w, g.ops);
      ReviewedRuns(h, t, dryRun, c, w, env.rounds);
      var w1 := Watched(c, w, g.ops);
      StopActive(c, w1);
      ActivePause(c, w1);
      SoundConcat(c, w, g.ops, [Append(Stop)]);
      SoundConcat(c, w, g.ops, PauseOps(DiffReview));
    }
  }

  /** Ready to commit: approved, if c is diff_review. */
  predicate MayCommit(c: Checkpoint, w: Watch, resume: Option<Checkpoint>) {
    RowRuns(w) && (c == DiffReview ==> w.mark == Given) && (c == PrePr && resume == Some(PrePr) ==> w.mark == Waiting)
  }

  lemma PrecommitSound(c: Checkpoint, w: Watch, resume: Option<Checkpoint>, env: Env)
    requires PastLoop(c, w, resume)
    ensures var p := PrecommitPart(resume, env);
      Sound(c, w, p.ops) && (p.halt.None? ==> MayCommit(c, Watched(c, w, p.ops), resume))
  {
    hide Sound, Watched, L.Checks, Findings;
    assert resume.Some? ==> resume.value.PlanReview? || resume.value.DiffReview? || resume.value.PrePr?;
    var ok := env.findings == [];
    var opening := if resume == Some(DiffReview) then [Append(CheckpointResumed(DiffReview))] else [];
    NothingWatched(c, w);
    SoundOne(c, w, Append(CheckpointResumed(DiffReview)));
    var w1 := Watched(c, w, opening);
    var rest := [Append(PrecommitDone(ok)), SetStatus(Blocked), Append(Stop)];
    SoundOne(c, w1, rest[0]);
    SoundTwo(c, w1, rest[0], rest[1]);
    SoundThree(c, w1, rest[0], rest[1], rest[2]);
    SoundConcat(c, w, opening, [rest[0]]);
    SoundConcat(c, w, opening, rest);
    assert PrecommitPart(resume, env).ops == opening + if ok then [rest[0]] else rest;
  }

  lemma FinishSound(c: Checkpoint, w: Watch, triage: Triage)
    requires RowRuns(w) && (c == PrePr ==> w.mark == Given)
    ensures Sound(c, w, FinishOps(triage))
  {
    hide Sound, Watched;
    var held, rest := [Append(StoreEvent.TriageHold)], [SetAwaiting(Done, None), Append(StoreEvent.PipelineDone(triage)), Append(Stop)];
    SoundOne(c, w, held[0]);
    SoundTwo(c, w, rest[0], rest[1]);
    SoundThree(c, w, rest[0], rest[1], rest[2]);
    SoundConcat(c, w, held, rest);
    assert triage != Hold ==> FinishOps(triage) == rest;
  }

  lemma ShipSound(c: Checkpoint, w: Watch, t: Task, dryRun: bool, resume: Option<Checkpoint>, triage: Triage)
    requires MayCommit(c, w, resume) && PausesAt(c, t)
    ensures Sound(c, w, ShipPart(t, dryRun, resume, triage).ops)
  {
    hide Sound, Watched, PauseOps, FinishOps;
    var commit := Append(CommitDone(dryRun));
    var resumed := if resume == Some(PrePr) then [Append(CheckpointResumed(PrePr))] else [];
    SoundOne(c, w, commit);
    var w1 := WatchAfter(c, w, commit);
    if PausesBeforePr(t, resume) {
      PauseSound(c, w1, PrePr);
      SoundConcat(c, w, [commit], PauseOps(PrePr));
    } else {
      NothingWatched(c, w1);
      SoundOne(c, w1, Append(CheckpointResumed(PrePr)));
      var w2 := Watched(c, w1, resumed);
      FinishSound(c, w2, triage);
      SoundConcat(c, w1, resumed, FinishOps(triage));
      SoundConcat(c, w, [commit], resumed + FinishOps(triage));
      assert [commit] + resumed + FinishOps(triage) == [commit] + (resumed + FinishOps(triage));
    }
  }

  lemma ThenSound(c: Checkpoint, w: Watch, a: Part, b: Part)
    requires Sound(c, w, a.ops) && (a.halt.None? ==> Sound(c, Watched(c, w, a.ops), b.ops))
    ensures Sound(c, w, Then(a, b).ops)
    ensures a.halt.None? ==> Watched(c, w, Then(a, b).ops) == Watched(c, Watched(c, w, a.ops), b.ops)
  {
    hide Sound, Watched;
    SoundConcat(c, w, a.ops, b.ops);
  }

  lemma RunSound(h: Heuristics, c: Checkpoint, w: Watch, t: Task, dryRun: bool, resume: Option<Checkpoint>, env: Env)
    requires Begins(c, w, resume) && PausesAt(c, t)
    ensures Sound(c, w, Run(h, t, dryRun, resume, env).ops)
  {
    hide Sound, Watched, OpenPart, PlanPart, LoopPart, PrecommitPart, ShipPart, FinalTriage,
      Begins, Opened, HasPlan, PastLoop, MayCommit, PausesAt;
    var open, plan := OpenPart(t, dryRun, resume, env), PlanPart(t, dryRun, resume, env);
    var loop, precommit := LoopPart(h, t, dryRun, resume, env), PrecommitPart(resume, env);
    var triage := FinalTriage(h, t, dryRun, resume, env);
    OpenSound(c, w, t, dryRun, resume, env);
    if open.halt.None? {
      PlanSound(c, Watched(c, w, open.ops), t, dryRun, resume, env);
    }
    ThenSound(c, w, open, plan);
    var a := Then(open, plan);
    if a.halt.None? {
      LoopStageSound(h, c, Watched(c, w, a.ops), t, dryRun, resume, env);
    }
    ThenSound(c, w, a, loop);
    var b := Then(a, loop);
    if b.halt.None? {
      PrecommitSound(c, Watched(c, w, b.ops), resume, env);
    }
    ThenSound(c, w, b, precommit);
    var d := Then(b, precommit);
    if d.halt.None? {
      ShipSound(c, Watched(c, w, d.ops), t, dryRun, resume, triage);
    }
    ThenSound(c, w, d, ShipPart(t, dryRun, resume, triage));
  }

  // ---- histories

  predicate CommandPauses(c: Checkpoint, command: Command) {
    !command.Reject? ==> PausesAt(c, command.task)
  }

  lemma CommandSound(h: Heuristics, c: Checkpoint, w: Watch, command: Command)
    requires Kept(c, w) && CommandPauses(c, command)
    ensures Sound(c, w, OpsOf(h, w.row, command))
  {
    hide Run, Sound, Watched;
    NothingWatched(c, w);
    match command
    case RunTask(t, dryRun, env) => RunSound(h, c, w, t, dryRun, None, env);
    case Resume(t, dryRun, env, specFound) =>
      if MayResume(w.row, specFound) {
        RunSound(h, c, w, t, dryRun, w.row.value.awaiting, env);
      }
    case Reject => SoundTwo(c, w, SetAwaiting(Rejected, None), Append(CheckpointRejected));
  }

  lemma {:induction false} HistorySound(h: Heuristics, c: Checkpoint, s: State, w: Watch, acts: seq<Act>)
    requires Kept(c, w) && s.row == w.row
    requires forall k :: 0 <= k < |acts| ==> CommandPauses(c, acts[k].command)
    ensures Sound(c, w, Journal(h, s, acts))
    decreases |acts|
  {
    hide Sound, Watched, Play, OpsOf, Kept, CommandPauses;
    if acts == [] {
      NothingWatched(c, w);
    } else {
      var all := OpsOf(h, s.row, acts[0].command);
      var ops := Cut(all, acts[0].killedAfter);
      CommandSound(h, c, w, acts[0].command);
      SoundConcat(c, w, ops, all[|ops|..]);
      assert all == ops + all[|ops|..];
      SoundEnd(c, w, ops);
      RowsFollow(h, c, s, w, ops);
      assert forall k :: 0 <= k < |acts[1..]| ==> acts[1..][k] == acts[k + 1];
      HistorySound(h, c, Play(h, s, ops), Watched(c, w, ops), acts[1..]);
      SoundConcat(c, w, ops, Journal(h, Play(h, s, ops), acts[1..]));
    }
  }

  lemma SoundAt(c: Checkpoint, w: Watch, ops: seq<Op>, i: nat)
    requires Sound(c, w, ops) && i < |ops| && Guarded(c, ops[i])
    ensures Watched(c, w, ops[..i]).mark == Given
  {
    hide Sound, Watched, Kept, Guarded;
    var rest := ops[i + 1..];
    assert ops == ops[..i] + ([ops[i]] + rest);
    SoundConcat(c, w, ops[..i], [ops[i]] + rest);
    SoundConcat(c, Watched(c, w, ops[..i]), [ops[i]], rest);
    SoundOne(c, Watched(c, w, ops[..i]), ops[i]);
  }

  /**
   * Over any history whose task files all pause at c, with any kills, flags and rejections: nothing
   * is implemented before its plan, nothing committed before its diff, and no run finished before
   * its pull request was approved. The approval is a resume of a run that paused there, and no new
   * plan, no new work and no rejection came in between.
   */
  lemma GuardedByApproval(h: Heuristics, c: Checkpoint, acts: seq<Act>)
    requires forall k :: 0 <= k < |acts| ==> CommandPauses(c, acts[k].command)
    ensures var journal := Journal(h, INITIAL, acts);
      forall i :: 0 <= i < |journal| && Guarded(c, journal[i]) ==> Approved(c, journal[..i])
  {
    hide Sound, Watched, Journal, CommandPauses, Guarded, Approved;
    HistorySound(h, c, INITIAL, NOTHING, acts);
    var journal := Journal(h, INITIAL, acts);
    forall i | 0 <= i < |journal| && Guarded(c, journal[i])
      ensures Approved(c, journal[..i])
    {
      SoundAt(c, NOTHING, journal, i);
      MarkMeans(c, journal[..i]);
    }
  }

  // ---- the log entry of a pause

  /** Every pause write is followed by its log entry. */
  predicate PausesLogged(ops: seq<Op>) {
    forall i :: 0 <= i < |ops| && ops[i].SetAwaiting? && ops[i].awaiting.Some? ==>
      i + 1 < |ops| && ops[i + 1] == Append(CheckpointPaused(ops[i].awaiting.value))
  }

  lemma LoggedConcat(a: seq<Op>, b: seq<Op>)
    requires PausesLogged(a) && PausesLogged(b)
    ensures PausesLogged(a + b)
  {
    var ops := a + b;
    forall i | 0 <= i < |ops| && ops[i].SetAwaiting? && ops[i].awaiting.Some?
      ensures i + 1 < |ops| && ops[i + 1] == Append(CheckpointPaused(ops[i].awaiting.value))
    {
      if i < |a| {
        assert ops[i] == a[i];
      } else {
        assert ops[i] == b[i - |a|];
      }
    }
  }

  lemma ThenLogged(a: Part, b: Part)
    requires PausesLogged(a.ops) && PausesLogged(b.ops)
    ensures PausesLogged(Then(a, b).ops)
  {
    LoggedConcat(a.ops, b.ops);
  }

  lemma RunLogged(h: Heuristics, t: Task, dryRun: bool, resume: Option<Checkpoint>, env: Env)
    ensures PausesLogged(Run(h, t, dryRun, resume, env).ops)
  {
    hide L.LoopFrom, BudgetLimitHit, FinalTriage, L.Checks, Findings;
    var open, plan := OpenPart(t, dryRun, resume, env), PlanPart(t, dryRun, resume, env);
    var loop, precommit := LoopPart(h, t, dryRun, resume, env), PrecommitPart(resume, env);
    var ship := ShipPart(t, dryRun, resume, FinalTriage(h, t, dryRun, resume, env));
    L.LoopStarts(h, t, dryRun, env.rounds);
    LoopOps(h, t, dryRun, env.rounds, 0, L.START);
    LoggedConcat(L.Loop(h, t, dryRun, env.rounds).ops, PauseOps(DiffReview));
    assert PausesLogged(open.ops) && PausesLogged(plan.ops) && PausesLogged(precommit.ops) && PausesLogged(ship.ops);
    assert PausesLogged(loop.ops);
    hide OpenPart, PlanPart, LoopPart, PrecommitPart, ShipPart, PausesLogged;
    ThenLogged(open, plan);
    ThenLogged(Then(open, plan), loop);
    ThenLogged(Then(Then(open, plan), loop), precommit);
    ThenLogged(Vetting(h, t, dryRun, resume, env), ship);
  }

  lemma NoPauses()
    ensures PausesLogged([])
  {
  }

  lemma CommandLogged(h: Heuristics, row: Option<Row>, command: Command)
    ensures PausesLogged(OpsOf(h, row, command))
  {
    hide Run;
    match command
    case RunTask(t, dryRun, env) => RunLogged(h, t, dryRun, None, env);
    case Resume(t, dryRun, env, specFound) =>
      if MayResume(row, specFound) {
        RunLogged(h, t, dryRun, row.value.awaiting, env);
      }
    case Reject =>
  }

  /** In a history without kills every pause the row shows is in the log right after it. */
  lemma {:induction false} UnkilledPausesLogged(h: Heuristics, s: State, acts: seq<Act>)
    requires forall k :: 0 <= k < |acts| ==> acts[k].killedAfter.None?
    ensures PausesLogged(Journal(h, s, acts))
    decreases |acts|
  {
    hide Run, Play, PausesLogged;
    if acts == [] {
      NoPauses();
    } else {
      var ops := OpsOf(h, s.row, acts[0].command);
      CommandLogged(h, s.row, acts[0].command);
      assert forall k :: 0 <= k < |acts[1..]| ==> acts[1..][k] == acts[k + 1];
      UnkilledPausesLogged(h, Play(h, s, ops), acts[1..]);
      LoggedConcat(ops, Journal(h, Play(h, s, ops), acts[1..]));
    }
  }
}
