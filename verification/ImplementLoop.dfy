/** The implement / gate / review loop. */
module ImplementLoop {
  import opened Numeric
  import opened Reviews
  import opened Tasks
  import opened Stores
  import E = RunEvidence

  /** What the outside world answers in one round: clocks, workers, gate exits, contract checks. */
  datatype Round = Round(elapsedStart: int, implementOk: bool, costUsd: real, materialDiff: bool,
                         exits: nat -> bool, violations: seq<Violation>, elapsedGates: int, replies: Replies)

  /** How the loop ends: a transcript, one of the sentinels, or a schema error out of the ledger. */
  datatype LoopEnd = Reviewed(text: string) | RejectedEnd | BlockedEnd | BudgetEnd | Crashed

  /** The loop's local variables. */
  datatype Locals = Locals(failures: nat, costUsd: real, review: string, outcomes: seq<Outcome>)

  /** One stretch of the loop: store writes, ledger events, and an end or the next locals. */
  datatype Step = Step(ops: seq<Op>, checks: seq<E.Event>, end: Option<LoopEnd>, locals: Locals)

  const START: Locals := Locals(0, 0.0, "", [])

  function NoDiffOutcome(): Outcome {
    Outcome("implementation-diff", false, true)
  }

  function Stubbed(gates: seq<Gate>): seq<Outcome> {
    RanGates(gates, i => true, |gates|)
  }

  /** The outcomes a round is judged by. */
  function RoundOutcomes(t: Task, dryRun: bool, r: Round): seq<Outcome> {
    if dryRun then Stubbed(t.gates)
    else if !r.materialDiff then [NoDiffOutcome()]
    else RanGates(t.gates, r.exits, |t.gates|) + ContractOutcomes(t, r.violations)
  }

  function CheckOf(o: Outcome): E.Event {
    E.GateCheck(if o.ok then E.Passed else E.Failed, Some(o.name))
  }

  /** The checks emitted until the first unnamed outcome, whose schema error ends the run. */
  function Checks(outcomes: seq<Outcome>): seq<E.Event> {
    if outcomes == [] || outcomes[0].name == "" then [] else [CheckOf(outcomes[0])] + Checks(outcomes[1..])
  }

  predicate AllNamed(outcomes: seq<Outcome>) {
    forall i :: 0 <= i < |outcomes| ==> outcomes[i].name != ""
  }

  /** From the top of the round to the emitted gate checks. */
  function GateStep(t: Task, dryRun: bool, k: nat, r: Round, v: Locals): Step {
    var hit := BudgetLimitHit(t, r.elapsedStart, k, v.failures, v.costUsd);
    if hit.Some? then
      Step([SetStatus(Blocked), Append(BudgetExhausted(k, hit.value))], [], Some(BudgetEnd), v)
    else if !dryRun && !r.implementOk then
      Step([SetStatus(FailedStatus), Append(ImplementFailed(k))], [], Some(RejectedEnd), v.(outcomes := []))
    else
      var cost := v.costUsd + if dryRun then 0.0 else r.costUsd;
      var outcomes := RoundOutcomes(t, dryRun, r);
      var ok := MustPassOk(outcomes);
      var ran := [Append(ImplementDone(k)), Append(GatesDone(k, ok, outcomes))];
      if ok then
        Step(ran, Checks(outcomes), if AllNamed(outcomes) then None else Some(Crashed), v.(costUsd := cost, outcomes := outcomes))
      else
        var failures := v.failures + FailedCount(outcomes);
        var late := BudgetLimitHit(t, r.elapsedGates, k, failures, cost);
        var after := v.(failures := failures, costUsd := cost, outcomes := outcomes);
        if late.Some? then
          Step(ran + [Append(GatesFailed(k)), SetStatus(Blocked), Append(BudgetExhausted(k, late.value))], [], Some(BudgetEnd), after)
        else
          Step(ran + [Append(GatesFailed(k))], Checks(outcomes), if AllNamed(outcomes) then None else Some(Crashed), after)
  }

  /** The end of a loop that ran out of patch rounds. */
  function Exhausted(t: Task): LoopEnd {
    if BudgetSetsPatchCap(t) then BudgetEnd else BlockedEnd
  }

  /** From the reviewers to the decision; failing gates ask for a patch whatever the reviewers say. */
  function ReviewStep(h: Heuristics, t: Task, dryRun: bool, k: nat, r: Round, v: Locals): Step {
    var ok := MustPassOk(v.outcomes);
    var text := ReviewText(t.panel, r.replies, dryRun, if ok then Clean else NeedsPatch);
    var verdict := CombinedStatus(h, text);
    var after := v.(review := text);
    if ok && verdict == Clean then Step([SetReview(text)], [], Some(Reviewed(text)), after)
    else if ok && verdict == Reject then Step([SetReview(text), SetStatus(Blocked)], [], Some(RejectedEnd), after)
    else if k >= EffectiveMaxPatchRounds(t) then Step([SetReview(text), SetStatus(Blocked)], [], Some(Exhausted(t)), after)
    else Step([SetReview(text)], [], None, after)
  }

  /** Sequential composition of stretches. */
  function Then(a: Step, b: Step): Step {
    if a.end.Some? then a else Step(a.ops + b.ops, a.checks + b.checks, b.end, b.locals)
  }

  function RoundStep(h: Heuristics, t: Task, dryRun: bool, k: nat, r: Round, v: Locals): Step {
    var gates := GateStep(t, dryRun, k, r, v);
    Then(gates, ReviewStep(h, t, dryRun, k, r, gates.locals))
  }

  /** The loop from round k on; past the last round it falls through with whatever it holds. */
  function LoopFrom(h: Heuristics, t: Task, dryRun: bool, rounds: nat -> Round, k: nat, v: Locals): Step
    decreases EffectiveMaxPatchRounds(t) + 1 - k
  {
    if k > EffectiveMaxPatchRounds(t) then Step([], [], Some(Reviewed(v.review)), v)
    else
      var here := RoundStep(h, t, dryRun, k, rounds(k), v);
      Then(here, LoopFrom(h, t, dryRun, rounds, k + 1, here.locals))
  }

  function Loop(h: Heuristics, t: Task, dryRun: bool, rounds: nat -> Round): Step {
    LoopFrom(h, t, dryRun, rounds, 0, START)
  }

  // ---- the loop itself

  method EmitChecks(ledger: E.Ledger, outcomes: seq<Outcome>) returns (ok: bool)
    modifies ledger
    ensures ok <==> AllNamed(outcomes)
    ensures ledger.events == old(ledger.events) + Checks(outcomes)
  {
    var i := 0;
    while i < |outcomes|
      invariant 0 <= i <= |outcomes|
      invariant forall k :: 0 <= k < i ==> outcomes[k].name != ""
      invariant old(ledger.events) + Checks(outcomes) == ledger.events + Checks(outcomes[i..])
    {
      assert outcomes[i..][1..] == outcomes[i + 1..];
      ok := ledger.Emit(CheckOf(outcomes[i]));
      if !ok {
        return;
      }
      i := i + 1;
    }
    ok := true;
  }

  lemma ContractOk(t: Task, violations: seq<Violation>)
    ensures MustPassOk(ContractOutcomes(t, violations)) <==> t.contract == [] || forall i :: 0 <= i < |violations| ==> !violations[i].required
  {
    var outcomes := ContractOutcomes(t, violations);
    if t.contract != [] && violations != [] {
      assert forall i :: 0 <= i < |violations| ==> outcomes[i].ok == false && outcomes[i].mustPass == violations[i].required;
    }
  }

  lemma StubbedOk(gates: seq<Gate>)
    ensures MustPassOk(Stubbed(gates))
  {
  }

  lemma MustPassConcat(a: seq<Outcome>, b: seq<Outcome>)
    ensures MustPassOk(a + b) <==> MustPassOk(a) && MustPassOk(b)
  {
    assert forall i :: 0 <= i < |a| ==> (a + b)[i] == a[i];
    assert forall i :: 0 <= i < |b| ==> (a + b)[|a| + i] == b[i];
  }

  method RunRoundGates(t: Task, dryRun: bool, r: Round) returns (ok: bool, outcomes: seq<Outcome>)
    ensures outcomes == RoundOutcomes(t, dryRun, r)
    ensures ok ==> MustPassOk(outcomes)
    ensures MustPassOk(outcomes) ==> ok
  {
    if !dryRun && !r.materialDiff {
      ok, outcomes := false, [NoDiffOutcome()];
      assert !MustPassOk(outcomes) by { assert !outcomes[0].ok; }
    } else if dryRun {
      ok, outcomes := true, Stubbed(t.gates);
      StubbedOk(t.gates);
    } else {
      ok, outcomes := RunGates(t.gates, r.exits);
      ghost var plain := outcomes;
      assert forall i: nat :: i < |t.gates| ==> plain[i].ok == r.exits(i) && plain[i].mustPass == t.gates[i].mustPass;
      assert ok <==> MustPassOk(plain);
      var upheld, contract := RunContractGates(t, r.violations);
      ContractOk(t, r.violations);
      outcomes, ok := outcomes + contract, ok && upheld;
      MustPassConcat(plain, contract);
    }
  }

  method DoGateStep(store: Store, ledger: E.Ledger, t: Task, dryRun: bool, k: nat, r: Round, v: Locals)
    returns (end: Option<LoopEnd>, locals: Locals)
    requires store.Valid()
    modifies store, ledger
    ensures store.Valid()
    ensures var s := GateStep(t, dryRun, k, r, v);
      store.journal == old(store.journal) + s.ops && ledger.events == old(ledger.events) + s.checks
      && end == s.end && locals == s.locals
  {
    hide RoundOutcomes, MustPassOk, BudgetLimitHit, Checks, AllNamed, Store.Valid;
    var hit := BudgetLimitHit(t, r.elapsedStart, k, v.failures, v.costUsd);
    if hit.Some? {
      store.UpdateStatus(Blocked);
      store.AppendEvent(BudgetExhausted(k, hit.value));
      return Some(BudgetEnd), v;
    }
    if !dryRun && !r.implementOk {
      store.UpdateStatus(FailedStatus);
      store.AppendEvent(ImplementFailed(k));
      return Some(RejectedEnd), v.(outcomes := []);
    }
    locals := v.(costUsd := v.costUsd + if dryRun then 0.0 else r.costUsd);
    store.AppendEvent(ImplementDone(k));
    var ok, outcomes := RunRoundGates(t, dryRun, r);
    locals := locals.(outcomes := outcomes);
    store.AppendEvent(GatesDone(k, ok, outcomes));
    if !ok {
      locals := locals.(failures := v.failures + FailedCount(outcomes));
      store.AppendEvent(GatesFailed(k));
      var late := BudgetLimitHit(t, r.elapsedGates, k, locals.failures, locals.costUsd);
      if late.Some? {
        store.UpdateStatus(Blocked);
        store.AppendEvent(BudgetExhausted(k, late.value));
        return Some(BudgetEnd), locals;
      }
    }
    var emitted := EmitChecks(ledger, outcomes);
    end := if emitted then None else Some(Crashed);
  }

  method DoReviewStep(store: Store, h: Heuristics, t: Task, dryRun: bool, k: nat, r: Round, v: Locals)
    returns (end: Option<LoopEnd>, locals: Locals)
    requires store.Valid()
    modifies store
    ensures store.Valid()
    ensures var s := ReviewStep(h, t, dryRun, k, r, v);
      store.journal == old(store.journal) + s.ops && end == s.end && locals == s.locals && s.checks == []
  {
    hide MustPassOk, CombinedStatus, ReviewText, Store.Valid;
    var ok := MustPassOk(v.outcomes);
    var text := RunReviewers(t.panel, r.replies, dryRun, if ok then Clean else NeedsPatch);
    locals := v.(review := text);
    store.UpdateReview(text);
    if ok {
      var verdict := CombinedStatus(h, text);
      if verdict == Clean {
        return Some(Reviewed(text)), locals;
      }
      if verdict == Reject {
        store.UpdateStatus(Blocked);
        return Some(RejectedEnd), locals;
      }
    }
    if k >= EffectiveMaxPatchRounds(t) {
      store.UpdateStatus(Blocked);
      return Some(Exhausted(t)), locals;
    }
    end := None;
  }

  lemma ThenFields(a: Step, b: Step)
    ensures a.end.Some? ==> Then(a, b) == a
    ensures a.end.None? ==> Then(a, b) == Step(a.ops + b.ops, a.checks + b.checks, b.end, b.locals)
  {
  }

  lemma ThenAssociates(a: Step, b: Step, c: Step)
    ensures Then(Then(a, b), c) == Then(a, Then(b, c))
  {
  }

  lemma LoopStarts(h: Heuristics, t: Task, dryRun: bool, rounds: nat -> Round)
    ensures Loop(h, t, dryRun, rounds) == LoopFrom(h, t, dryRun, rounds, 0, START)
  {
  }

  lemma Unroll(h: Heuristics, t: Task, dryRun: bool, rounds: nat -> Round, k: nat, v: Locals)
    requires k <= EffectiveMaxPatchRounds(t)
    ensures var here := RoundStep(h, t, dryRun, k, rounds(k), v);
      LoopFrom(h, t, dryRun, rounds, k, v) == Then(here, LoopFrom(h, t, dryRun, rounds, k + 1, here.locals))
  {
  }

  lemma FallThrough(h: Heuristics, t: Task, dryRun: bool, rounds: nat -> Round, k: nat, v: Locals)
    requires k > EffectiveMaxPatchRounds(t)
    ensures LoopFrom(h, t, dryRun, rounds, k, v) == Step([], [], Some(Reviewed(v.review)), v)
  {
  }

  method DoRound(store: Store, ledger: E.Ledger, h: Heuristics, t: Task, dryRun: bool, k: nat, r: Round, v: Locals)
    returns (end: Option<LoopEnd>, locals: Locals)
    requires store.Valid()
    modifies store, ledger
    ensures store.Valid()
    ensures var s := RoundStep(h, t, dryRun, k, r, v);
      store.journal == old(store.journal) + s.ops && ledger.events == old(ledger.events) + s.checks
      && end == s.end && locals == s.locals
  {
    hide GateStep, ReviewStep, Store.Valid;
    end, locals := DoGateStep(store, ledger, t, dryRun, k, r, v);
    if end.None? {
      end, locals := DoReviewStep(store, h, t, dryRun, k, r, locals);
    }
  }

  /** `_run_implement_loop`: every write and every ledger event, in order, and how it ended. */
  method RunImplementLoop(store: Store, ledger: E.Ledger, h: Heuristics, t: Task, dryRun: bool, rounds: nat -> Round)
    returns (end: LoopEnd, outcomes: seq<Outcome>)
    requires store.Valid()
    modifies store, ledger
    ensures store.Valid()
    ensures var s := Loop(h, t, dryRun, rounds);
      store.journal == old(store.journal) + s.ops && ledger.events == old(ledger.events) + s.checks
      && s.end == Some(end) && outcomes == s.locals.outcomes
  {
    hide RoundStep, Store.Valid, Then, LoopFrom, Loop, EffectiveMaxPatchRounds;
    var v := START;
    var k: nat := 0;
    ghost var sofar := Step([], [], None, v);
    ghost var whole := Loop(h, t, dryRun, rounds);
    assert whole == LoopFrom(h, t, dryRun, rounds, k, v) by { LoopStarts(h, t, dryRun, rounds); }
    ThenFields(sofar, whole);
    assert [] + whole.ops == whole.ops && [] + whole.checks == whole.checks;
    while k <= EffectiveMaxPatchRounds(t)
      invariant store.Valid()
      invariant store.journal == old(store.journal) + sofar.ops && ledger.events == old(ledger.events) + sofar.checks
      invariant sofar.end == None && sofar.locals == v
      invariant Then(sofar, LoopFrom(h, t, dryRun, rounds, k, v)) == whole
      decreases EffectiveMaxPatchRounds(t) + 1 - k
    {
      ghost var here, rest := RoundStep(h, t, dryRun, k, rounds(k), v), LoopFrom(h, t, dryRun, rounds, k, v);
      Unroll(h, t, dryRun, rounds, k, v);
      var done, after := DoRound(store, ledger, h, t, dryRun, k, rounds(k), v);
      ThenAssociates(sofar, here, LoopFrom(h, t, dryRun, rounds, k + 1, here.locals));
      ThenFields(sofar, here);
      sofar, v := Then(sofar, here), after;
      if done.Some? {
        ThenFields(sofar, LoopFrom(h, t, dryRun, rounds, k + 1, here.locals));
        return done.value, v.outcomes;
      }
      k := k + 1;
    }
    FallThrough(h, t, dryRun, rounds, k, v);
    ThenFields(sofar, LoopFrom(h, t, dryRun, rounds, k, v));
    return Reviewed(v.review), v.outcomes;
  }
}
