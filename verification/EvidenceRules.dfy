/** What the emitter's fields and the validator's rules come to, case by case. */
module EvidenceRules {
  import opened Numeric
  import opened RunEvidence

  /** The one schema rule: a passed or failed check carries a non-empty name. */
  lemma SchemaIs(e: Event)
    ensures SchemaValid(e) <==> (e.GateCheck? && (e.kind == Passed || e.kind == Failed) ==> e.name.Some? && |e.name.value| > 0)
  {
  }

  /** A named check is filed under its name, an unnamed one under its event type. */
  lemma FiledUnder(kind: CheckKind, name: Option<string>)
    requires kind != OtherCheck
    ensures EmittedNames([GateCheck(kind, name)], kind) ==
      [if name.Some? && name.value != "" then name.value else if kind == Passed then "gate.check.passed" else "gate.check.failed"]
  {
    assert [GateCheck(kind, name)][..0] == [];
  }

  /** What a final record carries. */
  lemma FinalRecordIs(status: RunStatus, goal: string, workers: set<string>, gates: set<string>, headKnown: bool, events: seq<Event>)
    ensures var run := FinalRecord(status, goal, workers, gates, headKnown, events);
      && run.status == status && run.prompt == Some(PromptDigest(goal)) && run.tools == Some(ToolDigest(workers, gates))
      && run.sandbox == (if headKnown then Some("pending") else None)
      && (run.summary.Some? <==> exists i :: 0 <= i < |events| && events[i].GateCheck?)
      && Populated(run) == {PromptHash, ToolHash} + (if headKnown then {SandboxRef} else {}) + (if run.summary.Some? then {GateResults} else {})
  {
    hide EmittedNames;
  }

  /** A field is reported populated when the record has it, and missing when it has not or when it is empty. */
  lemma FieldsAre(run: Record)
    ensures PromptHash in Populated(run) <==> run.prompt.Some?
    ensures ToolHash in Populated(run) <==> run.tools.Some?
    ensures Determinism in Populated(run) <==> run.determinism
    ensures CheckpointRef in Populated(run) <==> run.checkpointRef
    ensures SandboxRef in Populated(run) <==> run.sandbox.Some?
    ensures GateResults in Populated(run) <==> run.summary.Some?
    ensures MissingOrEmpty(run, PromptHash) <==> PromptHash !in Populated(run)
    ensures MissingOrEmpty(run, ToolHash) <==> ToolHash !in Populated(run)
    ensures MissingOrEmpty(run, Determinism) <==> Determinism !in Populated(run)
    ensures MissingOrEmpty(run, CheckpointRef) <==> CheckpointRef !in Populated(run)
    ensures MissingOrEmpty(run, SandboxRef) <==> SandboxRef !in Populated(run) || run.sandbox == Some("")
    ensures MissingOrEmpty(run, GateResults) <==> GateResults !in Populated(run) || run.summary == Some(Summary(None, None, None))
  {
  }

  ghost predicate NoStarts(events: seq<Event>) {
    forall e :: e in events ==> !e.Start?
  }

  ghost predicate NoEvidence(events: seq<Event>) {
    forall e :: e in events ==> !e.EvidenceRecorded?
  }

  /** The first start event of the ledger is the one whose digests must be the record's; later ones do not count. */
  lemma FirstStartDecides(run: Record, before: seq<Event>, start: Event, after: seq<Event>)
    requires start.Start? && NoStarts(before)
    ensures var events := before + [start] + after;
      && !Violated(NoStartEvent, run, events)
      && (Violated(HashMismatch(PromptHash), run, events) <==> run.prompt != start.prompt)
      && (Violated(HashMismatch(ToolHash), run, events) <==> run.tools != start.tools)
  {
    var events, n := before + [start] + after, |before|;
    assert events[n] == start;
    assert forall k :: 0 <= k < n ==> events[k] in before;
    assert IsFirstStart(events, n);
    assert forall i :: IsFirstStart(events, i) ==> i == n;
  }

  /** The last evidence event is the one whose fields must be the record's. */
  lemma LastEvidenceDecides(run: Record, before: seq<Event>, e: Event, after: seq<Event>)
    requires e.EvidenceRecorded? && NoEvidence(after)
    ensures var events := before + [e] + after;
      && !Violated(NoEvidenceEvent, run, events)
      && (Violated(FieldsMismatch, run, events) <==> e.fields != Populated(run))
  {
    hide Populated;
    var events, n := before + [e] + after, |before|;
    assert events[n] == e;
    forall k | n < k < |events|
      ensures !events[k].EvidenceRecorded?
    {
      assert events[k] == after[k - n - 1] && events[k] in after;
    }
    assert IsLastEvidence(events, n);
    assert forall i :: IsLastEvidence(events, i) ==> i == n;
  }

  /** Without a start, or without evidence, that is the violation, and there is nothing to compare. */
  lemma AbsenceIsReported(run: Record, events: seq<Event>)
    ensures NoStarts(events) <==> Violated(NoStartEvent, run, events)
    ensures NoEvidence(events) <==> Violated(NoEvidenceEvent, run, events)
    ensures NoStarts(events) ==> forall f :: !Violated(HashMismatch(f), run, events)
    ensures NoEvidence(events) ==> !Violated(FieldsMismatch, run, events)
  {
    hide Populated;
    if NoStarts(events) {
      assert forall i :: 0 <= i < |events| ==> events[i] in events;
    }
    if NoEvidence(events) {
      assert forall i :: 0 <= i < |events| ==> events[i] in events;
    }
  }

  /** A required field that is missing or empty is reported; a field that is not required never is. */
  lemma MissingIsReported(run: Record, events: seq<Event>, f: Field)
    ensures Violated(Missing(f), run, events) <==> f in {PromptHash, ToolHash, SandboxRef, GateResults} && MissingOrEmpty(run, f)
  {
  }

  /** The names of the passed, or failed, checks that have one. */
  function Listed(events: seq<Event>, kind: CheckKind): multiset<string> {
    if events == [] then multiset{}
    else
      var e := events[0];
      (if e.GateCheck? && e.kind == kind && e.name.Some? && e.name.value != "" then multiset{e.name.value} else multiset{}) + Listed(events[1..], kind)
  }

  lemma {:induction false} ListedSnoc(events: seq<Event>, e: Event, kind: CheckKind)
    ensures Listed(events + [e], kind) == Listed(events, kind) + Listed([e], kind)
    decreases |events|
  {
    if events == [] {
      assert events + [e] == [e];
    } else {
      assert (events + [e])[1..] == events[1..] + [e];
      ListedSnoc(events[1..], e, kind);
    }
  }

  lemma {:induction false} ScannedIsListed(events: seq<Event>, kind: CheckKind)
    ensures multiset(ScannedNames(events, kind)) == Listed(events, kind)
  {
    if events != [] {
      var front, last := events[..|events| - 1], events[|events| - 1];
      assert events == front + [last];
      ScannedIsListed(front, kind);
      ListedSnoc(front, last, kind);
      assert [last][1..] == [];
    }
  }

  lemma NoneListed(names: seq<string>)
    ensures names == [] <==> multiset(names) == multiset{}
  {
    if names != [] {
      assert names[0] in multiset(names);
    }
  }

  /** A summary is held against the ledger's named checks: the same names as often, and all-passed only without failures. */
  lemma SummaryIsReported(run: Record, events: seq<Event>, s: Summary)
    requires run.summary == Some(s)
    ensures Violated(SummaryMismatch, run, events) <==>
      || multiset(if s.passed.Some? then s.passed.value else []) != Listed(events, Passed)
      || multiset(if s.failed.Some? then s.failed.value else []) != Listed(events, Failed)
      || (s.allPassed == Some(true)) != (Listed(events, Failed) == multiset{})
  {
    hide ScannedNames, Listed;
    ScannedIsListed(events, Passed);
    ScannedIsListed(events, Failed);
    NoneListed(ScannedNames(events, Failed));
  }
}
