/** What the Run record of a finished invocation says about its gates. */
module RunReports {
  import opened Numeric
  import opened Reviews
  import opened Tasks
  import opened Stores
  import opened Pipeline
  import opened Invocations
  import opened LoopOutcomes
  import L = ImplementLoop
  import E = RunEvidence

  lemma {:induction false} NamesConcat(a: seq<E.Event>, b: seq<E.Event>, k: E.CheckKind)
    ensures E.EmittedNames(a + b, k) == E.EmittedNames(a, k) + E.EmittedNames(b, k)
    decreases |b|
  {
    if b == [] {
      assert a + b == a;
    } else {
      assert (a + b)[..|a + b| - 1] == a + b[..|b| - 1];
      NamesConcat(a, b[..|b| - 1], k);
    }
  }

  lemma {:induction false} NoNames(events: seq<E.Event>, k: E.CheckKind)
    requires forall i :: 0 <= i < |events| ==> !events[i].GateCheck?
    ensures E.EmittedNames(events, k) == []
  {
    if events != [] {
      NoNames(events[..|events| - 1], k);
    }
  }

  /** The names of the outcomes that are ok, or of those that are not, in order. */
  function NamesOf(outcomes: seq<Outcome>, ok: bool): seq<string> {
    if outcomes == [] then []
    else (if outcomes[0].ok == ok then [outcomes[0].name] else []) + NamesOf(outcomes[1..], ok)
  }

  lemma OneName(o: Outcome, k: E.CheckKind)
    requires o.name != "" && k != E.OtherCheck
    ensures E.EmittedNames([L.CheckOf(o)], k) == if o.ok == (k == E.Passed) then [o.name] else []
  {
    assert [L.CheckOf(o)][..0] == [];
  }

  lemma {:induction false} CheckNames(outcomes: seq<Outcome>, k: E.CheckKind)
    requires L.AllNamed(outcomes) && k != E.OtherCheck
    ensures E.EmittedNames(L.Checks(outcomes), k) == NamesOf(outcomes, k == E.Passed)
  {
    hide E.EmittedNames;
    if outcomes == [] {
      NoNames([], k);
    } else {
      assert forall i :: 0 <= i < |outcomes[1..]| ==> outcomes[1..][i] == outcomes[i + 1];
      CheckNames(outcomes[1..], k);
      OneName(outcomes[0], k);
      NamesConcat([L.CheckOf(outcomes[0])], L.Checks(outcomes[1..]), k);
    }
  }

  /** Those of all rounds before k. */
  function NamesBefore(t: Task, dryRun: bool, rounds: nat -> L.Round, k: nat, ok: bool): seq<string> {
    if k == 0 then [] else NamesBefore(t, dryRun, rounds, k - 1, ok) + NamesOf(L.RoundOutcomes(t, dryRun, rounds(k - 1)), ok)
  }

  lemma {:induction false} RoundNames(t: Task, dryRun: bool, rounds: nat -> L.Round, k: nat, kind: E.CheckKind)
    requires kind != E.OtherCheck && forall j: nat :: j < k ==> L.AllNamed(L.RoundOutcomes(t, dryRun, rounds(j)))
    ensures E.EmittedNames(ChecksBefore(t, dryRun, rounds, k), kind) == NamesBefore(t, dryRun, rounds, k, kind == E.Passed)
  {
    hide E.EmittedNames, L.RoundOutcomes, L.AllNamed, L.Checks, NamesOf;
    if k == 0 {
      NoNames([], kind);
    } else {
      var outcomes := L.RoundOutcomes(t, dryRun, rounds(k - 1));
      RoundNames(t, dryRun, rounds, k - 1, kind);
      CheckNames(outcomes, kind);
      NamesConcat(ChecksBefore(t, dryRun, rounds, k - 1), L.Checks(outcomes), kind);
    }
  }

  /** The ledger body of a finished run that implemented: its plan's events, its loop's checks, the end. */
  lemma DoneBody(h: Heuristics, t: Task, dryRun: bool, resume: Option<Checkpoint>, env: Env)
    requires Run(h, t, dryRun, resume, env).halt == Some(Returned(Done)) && Implements(resume)
    ensures LoopReviewed(h, t, dryRun, resume, env)
    ensures Run(h, t, dryRun, resume, env).body ==
      PlanPart(t, dryRun, resume, env).body + L.Loop(h, t, dryRun, env.rounds).checks + [E.PipelineDone]
    ensures var plan := PlanPart(t, dryRun, resume, env).body; forall i :: 0 <= i < |plan| ==> !plan[i].GateCheck?
  {
    hide L.Loop, FinalTriage, Findings, L.Checks, BudgetLimitHit, Opens;
    RunEndsIff(h, t, dryRun, resume, env, Returned(Done));
    OpenIsSilent(t, dryRun, resume, env);
    StageHalts(h, t, dryRun, resume, env);
    hide OpenPart;
  }

  lemma {:induction false} NamedCount(outcomes: seq<Outcome>)
    ensures |NamesOf(outcomes, true)| + |NamesOf(outcomes, false)| == |outcomes|
    ensures NamesOf(outcomes, false) == [] <==> forall i :: 0 <= i < |outcomes| ==> outcomes[i].ok
  {
    if outcomes != [] {
      NamedCount(outcomes[1..]);
      assert forall i :: 0 < i < |outcomes| ==> outcomes[i] == outcomes[1..][i - 1];
    }
  }

  ghost predicate AllOk(t: Task, dryRun: bool, r: L.Round) {
    forall i :: 0 <= i < |L.RoundOutcomes(t, dryRun, r)| ==> L.RoundOutcomes(t, dryRun, r)[i].ok
  }

  lemma {:induction false} FailedNames(t: Task, dryRun: bool, rounds: nat -> L.Round, k: nat)
    ensures NamesBefore(t, dryRun, rounds, k, false) == [] <==> forall j: nat :: j < k ==> AllOk(t, dryRun, rounds(j))
  {
    hide NamesOf, L.RoundOutcomes;
    if k > 0 {
      FailedNames(t, dryRun, rounds, k - 1);
      NamedCount(L.RoundOutcomes(t, dryRun, rounds(k - 1)));
    }
  }

  lemma {:induction false} HasCheckNames(events: seq<E.Event>)
    requires forall i :: 0 <= i < |events| ==> events[i].GateCheck? ==> !events[i].kind.OtherCheck?
    ensures E.HasCheck(events) <==> E.EmittedNames(events, E.Passed) != [] || E.EmittedNames(events, E.Failed) != []
  {
    if events != [] {
      var n := |events| - 1;
      HasCheckNames(events[..n]);
      assert E.HasCheck(events) <==> E.HasCheck(events[..n]) || events[n].GateCheck? by {
        if i :| 0 <= i < |events| && events[i].GateCheck? {
          assert i < n ==> events[..n][i] == events[i];
        }
        if i :| 0 <= i < n && events[..n][i].GateCheck? {
          assert events[i].GateCheck?;
        }
      }
    }
  }

  predicate KnownKinds(events: seq<E.Event>) {
    forall i :: 0 <= i < |events| ==> events[i].GateCheck? ==> !events[i].kind.OtherCheck?
  }

  lemma {:induction false} ChecksKnown(t: Task, dryRun: bool, rounds: nat -> L.Round, k: nat)
    ensures KnownKinds(ChecksBefore(t, dryRun, rounds, k))
  {
    hide L.RoundOutcomes, L.Checks;
    if k > 0 {
      ChecksKnown(t, dryRun, rounds, k - 1);
      ChecksAre(L.RoundOutcomes(t, dryRun, rounds(k - 1)));
    }
  }

  /** Around the loop's checks nothing is named. */
  lemma Names(t: Task, plan: seq<E.Event>, checks: seq<E.Event>, k: E.CheckKind)
    requires forall i :: 0 <= i < |plan| ==> !plan[i].GateCheck?
    ensures E.EmittedNames([StartOf(t)] + plan + checks + [E.PipelineDone], k) == E.EmittedNames(checks, k)
  {
    hide E.EmittedNames;
    NoNames([StartOf(t)] + plan, k);
    NoNames([E.PipelineDone], k);
    NamesConcat([StartOf(t)] + plan, checks, k);
    NamesConcat([StartOf(t)] + plan + checks, [E.PipelineDone], k);
  }

  /** A reviewed loop emitted a check for every outcome of every round, each of them named. */
  lemma LoopChecks(h: Heuristics, t: Task, dryRun: bool, resume: Option<Checkpoint>, env: Env, n: nat)
    requires LoopReviewed(h, t, dryRun, resume, env) && EndsIn(h, t, dryRun, env.rounds, n)
    ensures L.Loop(h, t, dryRun, env.rounds).checks == ChecksBefore(t, dryRun, env.rounds, n + 1)
    ensures forall k: nat :: k <= n ==> L.AllNamed(L.RoundOutcomes(t, dryRun, env.rounds(k)))
  {
    hide L.Loop, LogBefore, LogOfLast, Judged, ChecksBefore, L.RoundOutcomes, L.AllNamed, Passes, Within, TextOf;
    LoopEndsIff(h, t, dryRun, env.rounds, n, LoopEndOf(h, t, dryRun, env).value);
    forall k: nat | k <= n
      ensures L.AllNamed(L.RoundOutcomes(t, dryRun, env.rounds(k)))
    {
      assert k < n ==> Continues(h, t, dryRun, env.rounds, k);
    }
  }

  /**
   * A finished run's record names every outcome of every round of its loop, passed and failed, in
   * order; so it says that all gates passed exactly when no gate and no contract part failed in any
   * round, advisory or later repaired ones included.
   */
  lemma DoneSummary(h: Heuristics, t: Task, dryRun: bool, resume: Option<Checkpoint>, env: Env, n: nat)
    requires Run(h, t, dryRun, resume, env).halt == Some(Returned(Done)) && Implements(resume)
    requires EndsIn(h, t, dryRun, env.rounds, n)
    ensures var summary := RecordOf(t, env, Done, Run(h, t, dryRun, resume, env).body).summary;
      var passed, failed := NamesBefore(t, dryRun, env.rounds, n + 1, true), NamesBefore(t, dryRun, env.rounds, n + 1, false);
      && (summary.Some? ==> summary.value == E.Summary(Some(passed), Some(failed), Some(failed == [])))
      && (summary.None? <==> passed == [] && failed == [])
      && (failed == [] <==> forall k: nat :: k <= n ==> AllOk(t, dryRun, env.rounds(k)))
  {
    hide Run, L.Loop, ChecksBefore, NamesBefore, E.EmittedNames, E.HasCheck, L.RoundOutcomes, Gated, LogBefore, LogOfLast, Judged, AllOk, PlanPart, LoopReviewed;
    var body := Run(h, t, dryRun, resume, env).body;
    var plan, checks := PlanPart(t, dryRun, resume, env).body, L.Loop(h, t, dryRun, env.rounds).checks;
    DoneBody(h, t, dryRun, resume, env);
    LoopChecks(h, t, dryRun, resume, env, n);
    var events := [StartOf(t)] + body;
    assert events == [StartOf(t)] + plan + checks + [E.PipelineDone];
    Names(t, plan, checks, E.Passed);
    Names(t, plan, checks, E.Failed);
    RoundNames(t, dryRun, env.rounds, n + 1, E.Passed);
    RoundNames(t, dryRun, env.rounds, n + 1, E.Failed);
    ChecksKnown(t, dryRun, env.rounds, n + 1);
    HasCheckNames(events);
    FailedNames(t, dryRun, env.rounds, n + 1);
  }
}
