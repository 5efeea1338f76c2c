/** The evidence a pipeline run leaves behind, and the independent validator that audits it. */
module RunEvidence {
  import opened Numeric

  /** SHA-256 of a canonical form; the form is the value, so digests collide only when forms do. */
  datatype Digest = PromptDigest(goal: string) | ToolDigest(workers: set<string>, gates: set<string>)

  /** The `gate.check.*` event types. */
  datatype CheckKind = Passed | Failed | OtherCheck

  datatype Summary = Summary(passed: Option<seq<string>>, failed: Option<seq<string>>, allPassed: Option<bool>)

  /** The replay-equivalence fields of a Run record. */
  datatype Field = PromptHash | ToolHash | Determinism | CheckpointRef | SandboxRef | GateResults

  datatype Event =
    | Start(prompt: Option<Digest>, tools: Option<Digest>)
    | GateCheck(kind: CheckKind, name: Option<string>)
    | EvidenceRecorded(fields: set<Field>)
    | PipelineDone
    | OtherEvent

  datatype RunStatus = RunDone | NeedsReview | Cancelled | RunFailed

  datatype Record = Record(status: RunStatus, prompt: Option<Digest>, tools: Option<Digest>, determinism: bool,
                           checkpointRef: bool, sandbox: Option<string>, summary: Option<Summary>)

  const PENDING: string := "pending"

  // ---- emitting

  predicate Named(e: Event)
    requires e.GateCheck?
  {
    e.name.Some? && e.name.value != ""
  }

  /** The part of the event schema that an emission can violate: gate checks carry a name. */
  predicate SchemaValid(e: Event) {
    e.GateCheck? && !e.kind.OtherCheck? ==> Named(e)
  }

  function TypeName(k: CheckKind): string {
    match k
    case Passed => "gate.check.passed"
    case Failed => "gate.check.failed"
    case OtherCheck => "gate.check.other"
  }

  predicate HasCheck(events: seq<Event>) {
    exists i :: 0 <= i < |events| && events[i].GateCheck?
  }

  /** The names the emitter files under k; an unnamed event is filed under its own type. */
  function EmittedNames(events: seq<Event>, k: CheckKind): seq<string> {
    if events == [] then []
    else
      var e := events[|events| - 1];
      EmittedNames(events[..|events| - 1], k)
      + if e.GateCheck? && e.kind == k then [if Named(e) then e.name.value else TypeName(k)] else []
  }

  function EmitterSummary(events: seq<Event>): Option<Summary> {
    if !HasCheck(events) then None
    else Some(Summary(Some(EmittedNames(events, Passed)), Some(EmittedNames(events, Failed)), Some(EmittedNames(events, Failed) == [])))
  }

  /** `aggregate_gate_results`. */
  method AggregateGateResults(events: seq<Event>) returns (summary: Option<Summary>)
    ensures summary == EmitterSummary(events)
  {
    var passed: seq<string>, failed: seq<string>, seenAny := [], [], false;
    for i := 0 to |events|
      invariant seenAny <==> HasCheck(events[..i])
      invariant passed == EmittedNames(events[..i], Passed) && failed == EmittedNames(events[..i], Failed)
    {
      assert events[..i + 1][..i] == events[..i];
      var e := events[i];
      if e.GateCheck? {
        seenAny := true;
        assert events[..i + 1][i].GateCheck?;
        var name := if Named(e) then e.name.value else TypeName(e.kind);
        if e.kind == Passed {
          passed := passed + [name];
        } else if e.kind == Failed {
          failed := failed + [name];
        }
      } else {
        assert HasCheck(events[..i + 1]) ==> HasCheck(events[..i]) by {
          var longer := events[..i + 1];
          if k :| 0 <= k < |longer| && longer[k].GateCheck? {
            assert events[..i][k].GateCheck?;
          }
        }
      }
    }
    assert events[..|events|] == events;
    if !seenAny {
      return None;
    }
    summary := Some(Summary(Some(passed), Some(failed), Some(failed == [])));
  }

  /** `_finalize_run_record`: the sandbox reference is replaced by the pending placeholder. */
  function FinalRecord(status: RunStatus, goal: string, workers: set<string>, gates: set<string>,
                       headKnown: bool, events: seq<Event>): Record {
    Record(status, Some(PromptDigest(goal)), Some(ToolDigest(workers, gates)), false, false,
           if headKnown then Some(PENDING) else None, EmitterSummary(events))
  }

  /** The names of the fields a record carries. */
  function Populated(run: Record): set<Field> {
    (if run.prompt.Some? then {PromptHash} else {})
    + (if run.tools.Some? then {ToolHash} else {})
    + (if run.determinism then {Determinism} else {})
    + (if run.checkpointRef then {CheckpointRef} else {})
    + (if run.sandbox.Some? then {SandboxRef} else {})
    + (if run.summary.Some? then {GateResults} else {})
  }

  /** The in-process ledger of one run. */
  class Ledger {
    var events: seq<Event>

    constructor ()
      ensures events == []
    {
      events := [];
    }

    /** Append an event; a schema violation is the ValueError that aborts the run. */
    method Emit(e: Event) returns (ok: bool)
      modifies this
      ensures ok <==> SchemaValid(e)
      ensures events == if SchemaValid(e) then old(events) + [e] else old(events)
    {
      if !SchemaValid(e) {
        return false;
      }
      events := events + [e];
      ok := true;
    }
  }

  // ---- validating

  /** The names the validator files under k; it skips unnamed events. */
  function ScannedNames(events: seq<Event>, k: CheckKind): seq<string> {
    if events == [] then []
    else
      var e := events[|events| - 1];
      ScannedNames(events[..|events| - 1], k)
      + if e.GateCheck? && e.kind == k && Named(e) then [e.name.value] else []
  }

  /** `_aggregate_gate_results_from_events`. */
  method ScanGateResults(events: seq<Event>) returns (passed: seq<string>, failed: seq<string>)
    ensures passed == ScannedNames(events, Passed) && failed == ScannedNames(events, Failed)
  {
    passed, failed := [], [];
    for i := 0 to |events|
      invariant passed == ScannedNames(events[..i], Passed) && failed == ScannedNames(events[..i], Failed)
    {
      assert events[..i + 1][..i] == events[..i];
      var e := events[i];
      if !e.GateCheck? || !Named(e) {
        continue;
      }
      if e.kind == Passed {
        passed := passed + [e.name.value];
      } else if e.kind == Failed {
        failed := failed + [e.name.value];
      }
    }
    assert events[..|events|] == events;
  }

  datatype Violation =
    | Missing(field: Field)
    | NoEvidenceEvent
    | NoStartEvent
    | HashMismatch(field: Field)
    | FieldsMismatch
    | SummaryMismatch

  const REQUIRED: set<Field> := {PromptHash, ToolHash, SandboxRef, GateResults}

  predicate MissingOrEmpty(run: Record, f: Field) {
    match f
    case PromptHash => run.prompt.None?
    case ToolHash => run.tools.None?
    case Determinism => !run.determinism
    case CheckpointRef => !run.checkpointRef
    case SandboxRef => run.sandbox.None? || run.sandbox.value == ""
    case GateResults => run.summary.None? || run.summary.value == Summary(None, None, None)
  }

  predicate IsFirstStart(events: seq<Event>, i: int) {
    0 <= i < |events| && events[i].Start? && forall k :: 0 <= k < i ==> !events[k].Start?
  }

  predicate IsLastEvidence(events: seq<Event>, i: int) {
    0 <= i < |events| && events[i].EvidenceRecorded? && forall k :: i < k < |events| ==> !events[k].EvidenceRecorded?
  }

  function OrEmpty(names: Option<seq<string>>): seq<string> {
    if names.Some? then names.value else []
  }

  /** Sorted lists compare equal exactly when they hold the same names as often. */
  predicate SummaryMatches(s: Summary, events: seq<Event>) {
    && multiset(OrEmpty(s.passed)) == multiset(ScannedNames(events, Passed))
    && multiset(OrEmpty(s.failed)) == multiset(ScannedNames(events, Failed))
    && (s.allPassed == Some(true) <==> ScannedNames(events, Failed) == [])
  }

  /** What each violation means for a done run and the events of its ledger. */
  ghost predicate Violated(v: Violation, run: Record, events: seq<Event>) {
    match v
    case Missing(f) => f in REQUIRED && MissingOrEmpty(run, f)
    case NoEvidenceEvent => forall i :: 0 <= i < |events| ==> !events[i].EvidenceRecorded?
    case NoStartEvent => forall i :: 0 <= i < |events| ==> !events[i].Start?
    case HashMismatch(f) =>
      exists i :: IsFirstStart(events, i)
        && ((f == PromptHash && run.prompt != events[i].prompt) || (f == ToolHash && run.tools != events[i].tools))
    case FieldsMismatch => exists i :: IsLastEvidence(events, i) && events[i].fields != Populated(run)
    case SummaryMismatch => run.summary.Some? && !SummaryMatches(run.summary.value, events)
  }

  ghost predicate Conforms(run: Record, events: seq<Event>) {
    forall v: Violation :: !Violated(v, run, events)
  }

  method FirstStart(events: seq<Event>) returns (i: int)
    ensures i < 0 ==> forall k :: 0 <= k < |events| ==> !events[k].Start?
    ensures i >= 0 ==> IsFirstStart(events, i)
  {
    i := 0;
    while i < |events| && !events[i].Start?
      invariant 0 <= i <= |events| && forall k :: 0 <= k < i ==> !events[k].Start?
    {
      i := i + 1;
    }
    if i == |events| {
      i := -1;
    }
  }

  method CheckStartEvent(run: Record, events: seq<Event>) returns (found: seq<Violation>)
    ensures forall v :: v in found <==> (v.NoStartEvent? || v.HashMismatch?) && Violated(v, run, events)
  {
    var start := FirstStart(events);
    if start < 0 {
      return [NoStartEvent];
    }
    assert forall i :: IsFirstStart(events, i) <==> i == start;
    found := [];
    if run.prompt != events[start].prompt {
      found := found + [HashMismatch(PromptHash)];
    }
    if run.tools != events[start].tools {
      found := found + [HashMismatch(ToolHash)];
    }
  }

  method LastEvidence(events: seq<Event>) returns (i: int)
    ensures i < 0 ==> forall k :: 0 <= k < |events| ==> !events[k].EvidenceRecorded?
    ensures i >= 0 ==> IsLastEvidence(events, i)
  {
    i := |events| - 1;
    while i >= 0 && !events[i].EvidenceRecorded?
      invariant -1 <= i < |events| && forall k :: i < k < |events| ==> !events[k].EvidenceRecorded?
    {
      i := i - 1;
    }
  }

  method CheckEvidenceEvent(run: Record, events: seq<Event>) returns (found: seq<Violation>)
    ensures forall v :: v in found <==> (v.NoEvidenceEvent? || v.FieldsMismatch?) && Violated(v, run, events)
  {
    var terminal := LastEvidence(events);
    if terminal < 0 {
      return [NoEvidenceEvent];
    }
    assert forall i :: IsLastEvidence(events, i) <==> i == terminal;
    found := if events[terminal].fields != Populated(run) then [FieldsMismatch] else [];
  }

  method CheckSummary(run: Record, events: seq<Event>) returns (found: seq<Violation>)
    ensures forall v :: v in found <==> v.SummaryMismatch? && Violated(v, run, events)
  {
    found := [];
    if run.summary.Some? {
      var passed, failed := ScanGateResults(events);
      var s := run.summary.value;
      if multiset(OrEmpty(s.passed)) != multiset(passed) || multiset(OrEmpty(s.failed)) != multiset(failed)
         || (s.allPassed == Some(true)) != (failed == []) {
        found := [SummaryMismatch];
      }
    }
  }

  method MissingFields(run: Record) returns (found: seq<Violation>)
    ensures forall v :: v in found <==> v.Missing? && v.field in REQUIRED && MissingOrEmpty(run, v.field)
  {
    var required := [PromptHash, ToolHash, SandboxRef, GateResults];
    found := [];
    for i := 0 to |required|
      invariant forall v :: v in found <==> v.Missing? && v.field in required[..i] && MissingOrEmpty(run, v.field)
    {
      assert required[..i + 1] == required[..i] + [required[i]];
      if MissingOrEmpty(run, required[i]) {
        found := found + [Missing(required[i])];
      }
    }
    assert required[..|required|] == required;
    assert forall f :: f in required <==> f in REQUIRED;
  }

  /** The checks on one done run: the violations found are exactly those that hold. */
  method CheckDoneRun(run: Record, events: seq<Event>) returns (found: seq<Violation>)
    ensures forall v :: v in found <==> Violated(v, run, events)
  {
    hide MissingOrEmpty, IsFirstStart, IsLastEvidence, SummaryMatches, Populated;
    var missing := MissingFields(run);
    var terminal := CheckEvidenceEvent(run, events);
    var start := CheckStartEvent(run, events);
    var summary := CheckSummary(run, events);
    found := missing + terminal + start + summary;
  }

  datatype Submission = Submission(run: Record, events: seq<Event>)

  /** `cross_check_done_runs`: silent exactly when every done run conforms. */
  method CrossCheckDoneRuns(runs: seq<Submission>) returns (found: seq<Violation>)
    ensures found == [] <==> forall i :: 0 <= i < |runs| && runs[i].run.status.RunDone? ==> Conforms(runs[i].run, runs[i].events)
  {
    found := [];
    for i := 0 to |runs|
      invariant found == [] <==> forall k :: 0 <= k < i && runs[k].run.status.RunDone? ==> Conforms(runs[k].run, runs[k].events)
    {
      if runs[i].run.status.RunDone? {
        var here := CheckDoneRun(runs[i].run, runs[i].events);
        if here != [] {
          assert here[0] in here;
        }
        found := found + here;
      }
    }
  }

  // ---- emitter and validator agree

  function UnnamedCount(events: seq<Event>, k: CheckKind): nat {
    if events == [] then 0
    else
      var e := events[|events| - 1];
      UnnamedCount(events[..|events| - 1], k) + if e.GateCheck? && e.kind == k && !Named(e) then 1 else 0
  }

  lemma {:induction false} NamesDiffer(events: seq<Event>, k: CheckKind)
    ensures |EmittedNames(events, k)| == |ScannedNames(events, k)| + UnnamedCount(events, k)
    ensures UnnamedCount(events, k) == 0 ==> EmittedNames(events, k) == ScannedNames(events, k)
  {
    if events != [] {
      NamesDiffer(events[..|events| - 1], k);
    }
  }

  lemma {:induction false} UnnamedExists(events: seq<Event>, k: CheckKind)
    ensures UnnamedCount(events, k) > 0 <==> exists i :: 0 <= i < |events| && events[i].GateCheck? && events[i].kind == k && !Named(events[i])
  {
    if events != [] {
      var n := |events| - 1;
      UnnamedExists(events[..n], k);
      if i :| 0 <= i < |events| && events[i].GateCheck? && events[i].kind == k && !Named(events[i]) {
        assert i < n ==> events[..n][i] == events[i];
      }
    }
  }

  /**
   * Emitter and validator, written separately, compute the same summary of any event list with a
   * gate check exactly when every passed and failed check carries a name: the emitter files an
   * unnamed check under its event type, the validator drops it.
   */
  lemma SummariesAgreeIff(events: seq<Event>)
    requires HasCheck(events)
    ensures SummaryMatches(EmitterSummary(events).value, events) <==> forall i :: 0 <= i < |events| ==> SchemaValid(events[i])
  {
    NamesDiffer(events, Passed);
    NamesDiffer(events, Failed);
    UnnamedExists(events, Passed);
    UnnamedExists(events, Failed);
    if forall i :: 0 <= i < |events| ==> SchemaValid(events[i]) {
      assert UnnamedCount(events, Passed) == 0 && UnnamedCount(events, Failed) == 0;
    } else {
      var i :| 0 <= i < |events| && !SchemaValid(events[i]);
      assert UnnamedCount(events, events[i].kind) > 0;
      assert |multiset(EmittedNames(events, events[i].kind))| != |multiset(ScannedNames(events, events[i].kind))|;
    }
  }

  lemma EvidenceEventChangesNothing(events: seq<Event>, fields: set<Field>)
    ensures ScannedNames(events + [EvidenceRecorded(fields)], Passed) == ScannedNames(events, Passed)
    ensures ScannedNames(events + [EvidenceRecorded(fields)], Failed) == ScannedNames(events, Failed)
  {
    assert (events + [EvidenceRecorded(fields)])[..|events|] == events;
  }

  /** The events a run emits between its start and its evidence record. */
  ghost predicate RunBody(body: seq<Event>) {
    forall i :: 0 <= i < |body| ==> SchemaValid(body[i]) && !body[i].Start? && !body[i].EvidenceRecorded?
  }

  function StartEvent(goal: string, workers: set<string>, gates: set<string>): Event {
    Start(Some(PromptDigest(goal)), Some(ToolDigest(workers, gates)))
  }

  /**
   * A run that emits its start event, a schema-valid body and its evidence record passes all four
   * cross-checks; it passes validation overall exactly when its sandbox reference was derivable
   * and it emitted at least one gate check.
   */
  lemma EmittedRunConformsIff(status: RunStatus, goal: string, workers: set<string>, gates: set<string>, headKnown: bool, body: seq<Event>)
    requires RunBody(body)
    ensures var before := [StartEvent(goal, workers, gates)] + body;
      var run := FinalRecord(status, goal, workers, gates, headKnown, before);
      var events := before + [EvidenceRecorded(Populated(run))];
      && (forall v :: Violated(v, run, events) ==> v == Missing(SandboxRef) || v == Missing(GateResults))
      && (Conforms(run, events) <==> headKnown && HasCheck(body))
  {
    hide ScannedNames, EmittedNames;
    var before := [StartEvent(goal, workers, gates)] + body;
    var run := FinalRecord(status, goal, workers, gates, headKnown, before);
    var events := before + [EvidenceRecorded(Populated(run))];
    assert HasCheck(before) <==> HasCheck(body) by {
      if i :| 0 <= i < |body| && body[i].GateCheck? { assert before[i + 1].GateCheck?; }
      if i :| 0 <= i < |before| && before[i].GateCheck? { assert body[i - 1].GateCheck?; }
    }
    EvidenceEventChangesNothing(before, Populated(run));
    if HasCheck(before) {
      SummariesAgreeIff(before);
      assert SummaryMatches(run.summary.value, events);
    }
    assert IsFirstStart(events, 0) && IsLastEvidence(events, |before|);
    assert events[0] == StartEvent(goal, workers, gates);
    assert forall i :: IsFirstStart(events, i) ==> i == 0;
    assert forall i :: IsLastEvidence(events, i) ==> i == |before|;
    assert events[|before|].EvidenceRecorded?;
    assert !Violated(NoEvidenceEvent, run, events) && !Violated(NoStartEvent, run, events);
    assert !Violated(SummaryMismatch, run, events) && !Violated(FieldsMismatch, run, events);
    assert Violated(Missing(SandboxRef), run, events) <==> !headKnown;
    assert Violated(Missing(GateResults), run, events) <==> !HasCheck(body);
  }
}
