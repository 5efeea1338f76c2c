/** One invocation of the factory pipeline: plan, implement loop, checkpoints, commit, done. */
module Pipeline {
  import opened Numeric
  import opened Reviews
  import opened Tasks
  import opened Stores
  import L = ImplementLoop
  import E = RunEvidence

  /** What the outside world answers during one invocation. */
  datatype Env = Env(worktreeOk: bool, headKnown: bool, elapsedPlan: int, storedPlan: bool, planOk: bool,
                     rounds: nat -> L.Round, storedReview: string, findings: seq<string>)

  /** NoEvidence: the worktree failed before a run record could exist. Raised: a ledger schema error. */
  datatype End = Returned(status: Status) | NoEvidence | Raised

  /** One stage: store writes, ledger events after the start event, and possibly the end of the run. */
  datatype Part = Part(ops: seq<Op>, body: seq<E.Event>, halt: Option<End>)

  const WORKERS: set<string> := {"claude_code", "codex", "stub"}

  function Then(a: Part, b: Part): Part {
    if a.halt.Some? then a else Part(a.ops + b.ops, a.body + b.body, b.halt)
  }

  function WorktreePart(dryRun: bool, resume: Option<Checkpoint>, env: Env): Part {
    var opening := [Upsert, Append(PipelineStart(dryRun, resume))];
    if !dryRun && !env.worktreeOk then
      Part(opening + [Append(WorktreeError), SetStatus(FailedStatus), Append(Stop)], [], Some(NoEvidence))
    else
      Part(opening + [Append(if dryRun then WorktreeSkipped else WorktreeReady), SetAwaiting(Running, None)], [], None)
  }

  function BudgetPart(t: Task, env: Env): Part {
    if BudgetLimitHit(t, env.elapsedPlan, 0, 0, 0.0).Some? then
      Part([SetStatus(Blocked), Append(Stop)], [], Some(Returned(Blocked)))
    else Part([], [], None)
  }

  function OpenPart(t: Task, dryRun: bool, resume: Option<Checkpoint>, env: Env): Part {
    Then(WorktreePart(dryRun, resume, env), BudgetPart(t, env))
  }

  /** Pausing at a checkpoint. */
  function PauseOps(c: Checkpoint): seq<Op> {
    [SetAwaiting(AwaitingApproval, Some(c)), Append(CheckpointPaused(c)), Append(Stop)]
  }

  function PlanPart(t: Task, dryRun: bool, resume: Option<Checkpoint>, env: Env): Part {
    match resume
    case Some(PlanReview) =>
      if env.storedPlan then Part([Append(CheckpointResumed(PlanReview))], [], None)
      else Part([SetStatus(FailedStatus), Append(Stop)], [], Some(Returned(FailedStatus)))
    case Some(_) => Part([], [], None)
    case None =>
      var calls := [E.OtherEvent, E.OtherEvent];
      if !dryRun && !env.planOk then
        Part([SetStatus(FailedStatus), Append(PlanFailed), Append(Stop)], calls, Some(Returned(FailedStatus)))
      else if PlanReview in t.checkpoints then
        Part([Append(PlanDone)] + PauseOps(PlanReview), calls + [E.OtherEvent], Some(Returned(AwaitingApproval)))
      else Part([Append(PlanDone)], calls, None)
  }

  predicate RunsLoop(resume: Option<Checkpoint>) {
    resume == None || resume == Some(PlanReview)
  }

  function LoopPart(h: Heuristics, t: Task, dryRun: bool, resume: Option<Checkpoint>, env: Env): Part {
    if !RunsLoop(resume) then Part([], [], None)
    else
      var s := L.Loop(h, t, dryRun, env.rounds);
      match s.end
      case Some(RejectedEnd) => Part(s.ops + [Append(Stop)], s.checks, Some(Returned(Rejected)))
      case Some(BudgetEnd) => Part(s.ops + [Append(Stop)], s.checks, Some(Returned(Blocked)))
      case Some(BlockedEnd) => Part(s.ops + [Append(Stop)], s.checks, Some(Returned(Blocked)))
      case Some(Crashed) => Part(s.ops, s.checks, Some(Raised))
      case _ =>
        if DiffReview in t.checkpoints then
          Part(s.ops + PauseOps(DiffReview), s.checks + [E.OtherEvent], Some(Returned(AwaitingApproval)))
        else Part(s.ops, s.checks, None)
  }

  /** The transcript and outcomes the last stage sees. */
  function LastReview(h: Heuristics, t: Task, dryRun: bool, resume: Option<Checkpoint>, env: Env): string {
    if RunsLoop(resume) then
      var s := L.Loop(h, t, dryRun, env.rounds);
      if s.end.Some? && s.end.value.Reviewed? then s.end.value.text else ""
    else if resume == Some(DiffReview) then env.storedReview
    else ""
  }

  function LastOutcomes(h: Heuristics, t: Task, dryRun: bool, resume: Option<Checkpoint>, env: Env): seq<Outcome> {
    if RunsLoop(resume) then L.Loop(h, t, dryRun, env.rounds).locals.outcomes else []
  }

  function Findings(findings: seq<string>): seq<Outcome> {
    if findings == [] then [] else [Outcome("precommit:" + findings[0], false, true)] + Findings(findings[1..])
  }

  predicate PausesBeforePr(t: Task, resume: Option<Checkpoint>) {
    t.prOpen && PrePr in t.checkpoints && resume != Some(PrePr)
  }

  function PrecommitPart(resume: Option<Checkpoint>, env: Env): Part {
    var ok := env.findings == [];
    var opening := if resume == Some(DiffReview) then [Append(CheckpointResumed(DiffReview))] else [];
    if ok then Part(opening + [Append(PrecommitDone(ok))], [], None)
    else Part(opening + [Append(PrecommitDone(ok)), SetStatus(Blocked), Append(Stop)], L.Checks(Findings(env.findings)), Some(Returned(Blocked)))
  }

  function FinishOps(triage: Triage): seq<Op> {
    (if triage == Hold then [Append(StoreEvent.TriageHold)] else [])
    + [SetAwaiting(Done, None), Append(StoreEvent.PipelineDone(triage)), Append(Stop)]
  }

  function ShipPart(t: Task, dryRun: bool, resume: Option<Checkpoint>, triage: Triage): Part {
    if PausesBeforePr(t, resume) then
      Part([Append(CommitDone(dryRun))] + PauseOps(PrePr), [E.OtherEvent], Some(Returned(AwaitingApproval)))
    else
      Part([Append(CommitDone(dryRun))]
           + (if resume == Some(PrePr) then [Append(CheckpointResumed(PrePr))] else [])
           + FinishOps(triage),
           [E.PipelineDone], Some(Returned(Done)))
  }

  function FinalTriage(h: Heuristics, t: Task, dryRun: bool, resume: Option<Checkpoint>, env: Env): Triage {
    TerminalTriage(h, t.policy, LastOutcomes(h, t, dryRun, resume, env), LastReview(h, t, dryRun, resume, env))
  }

  /** Everything before the commit step. */
  function Vetting(h: Heuristics, t: Task, dryRun: bool, resume: Option<Checkpoint>, env: Env): Part {
    Then(Then(Then(OpenPart(t, dryRun, resume, env), PlanPart(t, dryRun, resume, env)),
              LoopPart(h, t, dryRun, resume, env)),
         PrecommitPart(resume, env))
  }

  /** The whole invocation, as its writes, its ledger body and its end. */
  function Run(h: Heuristics, t: Task, dryRun: bool, resume: Option<Checkpoint>, env: Env): Part {
    Then(Vetting(h, t, dryRun, resume, env), ShipPart(t, dryRun, resume, FinalTriage(h, t, dryRun, resume, env)))
  }

  // ---- run records

  function GateNames(gates: seq<Gate>): set<string> {
    set i | 0 <= i < |gates| :: gates[i].name
  }

  function StartOf(t: Task): E.Event {
    E.StartEvent(t.goal, WORKERS, GateNames(t.gates))
  }

  /** The tool digest of a run covers the name of every gate and no other. */
  lemma DigestCoversGates(t: Task, name: string)
    ensures StartOf(t).tools.Some? && StartOf(t).tools.value.ToolDigest?
    ensures name in StartOf(t).tools.value.gates <==> exists i :: 0 <= i < |t.gates| && t.gates[i].name == name
    ensures StartOf(t).prompt == Some(E.PromptDigest(t.goal))
  {
  }

  function RecordStatus(s: Status): E.RunStatus {
    match s
    case Done => E.RunDone
    case Rejected => E.Cancelled
    case FailedStatus => E.RunFailed
    case _ => E.NeedsReview
  }

  function RecordOf(t: Task, env: Env, status: Status, body: seq<E.Event>): E.Record {
    E.FinalRecord(RecordStatus(status), t.goal, WORKERS, GateNames(t.gates), env.headKnown, [StartOf(t)] + body)
  }

  /** The full ledger of a run that returned. */
  function LedgerOf(t: Task, env: Env, status: Status, body: seq<E.Event>): seq<E.Event> {
    [StartOf(t)] + body + [E.EvidenceRecorded(E.Populated(RecordOf(t, env, status, body)))]
  }

  // ---- the pipeline itself

  method ResolveWorktree(store: Store, dryRun: bool, resume: Option<Checkpoint>, env: Env) returns (ok: bool)
    requires store.Valid()
    modifies store
    ensures store.Valid()
    ensures var p := WorktreePart(dryRun, resume, env);
      store.journal == old(store.journal) + p.ops && (ok <==> p.halt.None?)
  {
    hide Store.Valid;
    store.UpsertTask();
    store.AppendEvent(PipelineStart(dryRun, resume));
    if !dryRun && !env.worktreeOk {
      store.AppendEvent(WorktreeError);
      store.UpdateStatus(FailedStatus);
      store.AppendEvent(Stop);
      return false;
    }
    store.AppendEvent(if dryRun then WorktreeSkipped else WorktreeReady);
    store.UpdateAwaiting(Running, None);
    ok := true;
  }

  lemma StartIsValid(t: Task)
    ensures E.SchemaValid(StartOf(t))
  {
  }

  method Open(store: Store, ledger: E.Ledger, t: Task, dryRun: bool, resume: Option<Checkpoint>, env: Env) returns (halt: Option<End>)
    requires store.Valid() && ledger.events == []
    modifies store, ledger
    ensures store.Valid()
    ensures var p := OpenPart(t, dryRun, resume, env);
      store.journal == old(store.journal) + p.ops && halt == p.halt
      && ledger.events == if halt == Some(NoEvidence) then [] else [StartOf(t)]
  {
    hide Store.Valid, BudgetLimitHit, StartOf;
    StartIsValid(t);
    var ok := ResolveWorktree(store, dryRun, resume, env);
    if !ok {
      return Some(NoEvidence);
    }
    var _ := ledger.Emit(StartOf(t));
    var hit := BudgetLimitHit(t, env.elapsedPlan, 0, 0, 0.0);
    if hit.Some? {
      store.UpdateStatus(Blocked);
      store.AppendEvent(Stop);
      return Some(Returned(Blocked));
    }
    halt := None;
  }

  method Pause(store: Store, ledger: E.Ledger, c: Checkpoint)
    requires store.Valid()
    modifies store, ledger
    ensures store.Valid() && store.journal == old(store.journal) + PauseOps(c)
    ensures ledger.events == old(ledger.events) + [E.OtherEvent]
  {
    hide Store.Valid;
    store.UpdateAwaiting(AwaitingApproval, Some(c));
    store.AppendEvent(CheckpointPaused(c));
    var _ := ledger.Emit(E.OtherEvent);
    store.AppendEvent(Stop);
  }

  method Plan(store: Store, ledger: E.Ledger, t: Task, dryRun: bool, resume: Option<Checkpoint>, env: Env) returns (halt: Option<End>)
    requires store.Valid()
    modifies store, ledger
    ensures store.Valid()
    ensures var p := PlanPart(t, dryRun, resume, env);
      store.journal == old(store.journal) + p.ops && ledger.events == old(ledger.events) + p.body && halt == p.halt
  {
    hide Store.Valid;
    match resume {
      case Some(PlanReview) =>
        if !env.storedPlan {
          store.UpdateStatus(FailedStatus);
          store.AppendEvent(Stop);
          return Some(Returned(FailedStatus));
        }
        store.AppendEvent(CheckpointResumed(PlanReview));
        return None;
      case Some(_) =>
        return None;
      case None =>
        var started := ledger.Emit(E.OtherEvent);
        var completed := ledger.Emit(E.OtherEvent);
        if !dryRun && !env.planOk {
          store.UpdateStatus(FailedStatus);
          store.AppendEvent(PlanFailed);
          store.AppendEvent(Stop);
          return Some(Returned(FailedStatus));
        }
        store.AppendEvent(PlanDone);
        if PlanReview in t.checkpoints {
          Pause(store, ledger, PlanReview);
          return Some(Returned(AwaitingApproval));
        }
        return None;
    }
  }

  method ImplementStage(store: Store, ledger: E.Ledger, h: Heuristics, t: Task, dryRun: bool, resume: Option<Checkpoint>, env: Env)
    returns (halt: Option<End>, review: string, outcomes: seq<Outcome>)
    requires store.Valid()
    modifies store, ledger
    ensures store.Valid()
    ensures var p := LoopPart(h, t, dryRun, resume, env);
      store.journal == old(store.journal) + p.ops && ledger.events == old(ledger.events) + p.body && halt == p.halt
    ensures halt.None? ==> review == LastReview(h, t, dryRun, resume, env) && outcomes == LastOutcomes(h, t, dryRun, resume, env)
  {
    hide Store.Valid, L.Loop;
    if !RunsLoop(resume) {
      review := if resume == Some(DiffReview) then env.storedReview else "";
      return None, review, [];
    }
    var end;
    end, outcomes := L.RunImplementLoop(store, ledger, h, t, dryRun, env.rounds);
    review := "";
    match end {
      case RejectedEnd =>
        store.AppendEvent(Stop);
        halt := Some(Returned(Rejected));
      case BudgetEnd =>
        store.AppendEvent(Stop);
        halt := Some(Returned(Blocked));
      case BlockedEnd =>
        store.AppendEvent(Stop);
        halt := Some(Returned(Blocked));
      case Crashed =>
        halt := Some(Raised);
      case Reviewed(text) =>
        review := text;
        if DiffReview in t.checkpoints {
          Pause(store, ledger, DiffReview);
          halt := Some(Returned(AwaitingApproval));
        } else {
          halt := None;
        }
    }
  }

  lemma {:induction false} FindingsNamed(findings: seq<string>)
    ensures L.AllNamed(Findings(findings)) && (findings == [] <==> MustPassOk(Findings(findings)))
    ensures |Findings(findings)| == |findings|
    ensures forall i :: 0 <= i < |findings| ==> Findings(findings)[i] == Outcome("precommit:" + findings[i], false, true)
  {
    if findings != [] {
      var rest := Findings(findings[1..]);
      FindingsNamed(findings[1..]);
      assert forall i :: 0 < i < |Findings(findings)| ==> Findings(findings)[i] == rest[i - 1];
      assert !Findings(findings)[0].ok;
    }
  }

  method Precommit(store: Store, ledger: E.Ledger, resume: Option<Checkpoint>, env: Env) returns (halt: Option<End>)
    requires store.Valid()
    modifies store, ledger
    ensures store.Valid()
    ensures var p := PrecommitPart(resume, env);
      store.journal == old(store.journal) + p.ops && ledger.events == old(ledger.events) + p.body && halt == p.halt
  {
    hide Store.Valid, L.Checks, Findings, MustPassOk, L.AllNamed;
    if resume == Some(DiffReview) {
      store.AppendEvent(CheckpointResumed(DiffReview));
    }
    var outcomes := Findings(env.findings);
    FindingsNamed(env.findings);
    var ok := MustPassOk(outcomes);
    store.AppendEvent(PrecommitDone(ok));
    if ok {
      return None;
    }
    var _ := L.EmitChecks(ledger, outcomes);
    store.UpdateStatus(Blocked);
    store.AppendEvent(Stop);
    halt := Some(Returned(Blocked));
  }

  method Finish(store: Store, ledger: E.Ledger, triage: Triage)
    requires store.Valid()
    modifies store, ledger
    ensures store.Valid() && store.journal == old(store.journal) + FinishOps(triage)
    ensures ledger.events == old(ledger.events) + [E.PipelineDone]
  {
    hide Store.Valid;
    if triage == Hold {
      store.AppendEvent(StoreEvent.TriageHold);
    }
    store.UpdateAwaiting(Done, None);
    store.AppendEvent(StoreEvent.PipelineDone(triage));
    var _ := ledger.Emit(E.PipelineDone);
    store.AppendEvent(Stop);
  }

  method Ship(store: Store, ledger: E.Ledger, t: Task, dryRun: bool, resume: Option<Checkpoint>, triage: Triage) returns (halt: End)
    requires store.Valid()
    modifies store, ledger
    ensures store.Valid()
    ensures var p := ShipPart(t, dryRun, resume, triage);
      store.journal == old(store.journal) + p.ops && ledger.events == old(ledger.events) + p.body && Some(halt) == p.halt
  {
    hide Store.Valid, PausesBeforePr, FinishOps;
    ghost var was := store.journal;
    store.AppendEvent(CommitDone(dryRun));
    if PausesBeforePr(t, resume) {
      Pause(store, ledger, PrePr);
      assert store.journal == was + ([Append(CommitDone(dryRun))] + PauseOps(PrePr));
      return Returned(AwaitingApproval);
    }
    if resume == Some(PrePr) {
      store.AppendEvent(CheckpointResumed(PrePr));
    }
    Finish(store, ledger, triage);
    halt := Returned(Done);
  }

  method Persist(ledger: E.Ledger, t: Task, env: Env, status: Status, ghost body: seq<E.Event>) returns (run: E.Record)
    requires ledger.events == [StartOf(t)] + body
    modifies ledger
    ensures run == RecordOf(t, env, status, body) && ledger.events == LedgerOf(t, env, status, body)
  {
    hide E.EmitterSummary, StartOf;
    var summary := E.AggregateGateResults(ledger.events);
    run := E.Record(RecordStatus(status), Some(E.PromptDigest(t.goal)), Some(E.ToolDigest(WORKERS, GateNames(t.gates))),
                    false, false, if env.headKnown then Some(E.PENDING) else None, summary);
    var _ := ledger.Emit(E.EvidenceRecorded(E.Populated(run)));
  }

  lemma OnlyOpenLacksEvidence(h: Heuristics, t: Task, dryRun: bool, resume: Option<Checkpoint>, env: Env)
    ensures PlanPart(t, dryRun, resume, env).halt != Some(NoEvidence)
    ensures LoopPart(h, t, dryRun, resume, env).halt != Some(NoEvidence)
    ensures PrecommitPart(resume, env).halt != Some(NoEvidence)
  {
  }

  lemma OpenIsSilent(t: Task, dryRun: bool, resume: Option<Checkpoint>, env: Env)
    ensures OpenPart(t, dryRun, resume, env).body == []
  {
  }

  /** The stages before the commit step. */
  method Vet(store: Store, ledger: E.Ledger, h: Heuristics, t: Task, dryRun: bool, resume: Option<Checkpoint>, env: Env)
    returns (halt: Option<End>, review: string, outcomes: seq<Outcome>)
    requires store.Valid() && ledger.events == []
    modifies store, ledger
    ensures store.Valid()
    ensures var p := Vetting(h, t, dryRun, resume, env);
      store.journal == old(store.journal) + p.ops && halt == p.halt
      && ledger.events == if halt == Some(NoEvidence) then [] else [StartOf(t)] + p.body
    ensures halt.None? ==> review == LastReview(h, t, dryRun, resume, env) && outcomes == LastOutcomes(h, t, dryRun, resume, env)
  {
    hide Store.Valid, OpenPart, PlanPart, LoopPart, PrecommitPart, LastReview, LastOutcomes;
    ghost var was := store.journal;
    OpenIsSilent(t, dryRun, resume, env);
    OnlyOpenLacksEvidence(h, t, dryRun, resume, env);
    review, outcomes := "", [];
    halt := Open(store, ledger, t, dryRun, resume, env);
    if halt == Some(NoEvidence) {
      return;
    }
    ghost var sofar := OpenPart(t, dryRun, resume, env);
    if halt.None? {
      halt := Plan(store, ledger, t, dryRun, resume, env);
    }
    sofar := Then(sofar, PlanPart(t, dryRun, resume, env));
    assert store.journal == was + sofar.ops && ledger.events == [StartOf(t)] + sofar.body && halt == sofar.halt;
    if halt.None? {
      halt, review, outcomes := ImplementStage(store, ledger, h, t, dryRun, resume, env);
    }
    sofar := Then(sofar, LoopPart(h, t, dryRun, resume, env));
    assert store.journal == was + sofar.ops && ledger.events == [StartOf(t)] + sofar.body && halt == sofar.halt;
    if halt.None? {
      halt := Precommit(store, ledger, resume, env);
    }
  }

  /** `run_pipeline`. */
  method RunPipeline(store: Store, h: Heuristics, t: Task, dryRun: bool, resume: Option<Checkpoint>, env: Env)
    returns (end: End, run: Option<E.Record>, events: seq<E.Event>)
    requires store.Valid()
    modifies store
    ensures store.Valid()
    ensures var p := Run(h, t, dryRun, resume, env);
      && store.journal == old(store.journal) + p.ops && p.halt == Some(end)
      && (run.Some? <==> end.Returned?)
      && (end.Returned? ==> run.value == RecordOf(t, env, end.status, p.body) && events == LedgerOf(t, env, end.status, p.body))
      && (end.Raised? ==> events == [StartOf(t)] + p.body)
  {
    hide Store.Valid, Vetting, ShipPart, E.SchemaValid, E.StartEvent, TerminalTriage, LastReview, LastOutcomes, RecordOf, LedgerOf, StartOf;
    var ledger := new E.Ledger();
    var halt, review, outcomes := Vet(store, ledger, h, t, dryRun, resume, env);
    if halt == Some(NoEvidence) {
      return NoEvidence, None, [];
    }
    if halt.None? {
      end := Ship(store, ledger, t, dryRun, resume, TerminalTriage(h, t.policy, outcomes, review));
    } else {
      end := halt.value;
    }
    ghost var body := Run(h, t, dryRun, resume, env).body;
    assert ledger.events == [StartOf(t)] + body;
    if end.Returned? {
      var record := Persist(ledger, t, env, end.status, body);
      return end, Some(record), ledger.events;
    }
    return end, None, ledger.events;
  }
}
