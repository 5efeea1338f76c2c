/** The task store: one row per task and an append-only event log. */
module Stores {
  import opened Numeric
  import opened Tasks

  datatype Status = Pending | Running | AwaitingApproval | Blocked | FailedStatus | Rejected | Done

  datatype StoreEvent =
    | PipelineStart(dryRun: bool, resumeFrom: Option<Checkpoint>)
    | WorktreeSkipped | WorktreeReady | WorktreeError
    | PlanDone | PlanFailed
    | CheckpointPaused(checkpoint: Checkpoint)
    | CheckpointResumed(checkpoint: Checkpoint)
    | CheckpointRejected
    | ImplementDone(round: nat) | ImplementFailed(round: nat)
    | GatesDone(round: nat, ok: bool, outcomes: seq<Outcome>)
    | GatesFailed(round: nat)
    | BudgetExhausted(round: nat, cap: Cap)
    | PrecommitDone(ok: bool)
    | CommitDone(dryRun: bool)
    | TriageHold
    | PipelineDone(triage: Triage)
    | Stop

  /** One write to the store. SetReview carries the whole transcript; the row keeps 4000 characters. */
  datatype Op =
    | Upsert
    | SetStatus(status: Status)
    | SetAwaiting(status: Status, awaiting: Option<Checkpoint>)
    | SetReview(text: string)
    | Append(event: StoreEvent)

  datatype Row = Row(status: Status, awaiting: Option<Checkpoint>, review: string)

  function RowAfter(row: Option<Row>, op: Op): Option<Row> {
    match op
    case Upsert => if row.None? then Some(Row(Pending, None, "")) else row
    case SetStatus(s) => if row.None? then None else Some(row.value.(status := s))
    case SetAwaiting(s, a) => if row.None? then None else Some(row.value.(status := s, awaiting := a))
    case SetReview(text) => if row.None? then None else Some(row.value.(review := if |text| <= 4000 then text else text[..4000]))
    case Append(_) => row
  }

  function RowOf(journal: seq<Op>): Option<Row> {
    if journal == [] then None else RowAfter(RowOf(journal[..|journal| - 1]), journal[|journal| - 1])
  }

  function EventsOf(journal: seq<Op>): seq<StoreEvent> {
    if journal == [] then []
    else
      var last := journal[|journal| - 1];
      EventsOf(journal[..|journal| - 1]) + if last.Append? then [last.event] else []
  }

  lemma Replayed(journal: seq<Op>, op: Op)
    ensures RowOf(journal + [op]) == RowAfter(RowOf(journal), op)
    ensures EventsOf(journal + [op]) == EventsOf(journal) + if op.Append? then [op.event] else []
  {
    assert (journal + [op])[..|journal|] == journal;
  }

  class Store {
    var row: Option<Row>
    var events: seq<StoreEvent>
    ghost var journal: seq<Op>

    /** Row and log are what the writes so far make them. */
    ghost predicate Valid()
      reads this
    {
      row == RowOf(journal) && events == EventsOf(journal)
    }

    constructor ()
      ensures Valid() && journal == []
    {
      row, events, journal := None, [], [];
    }

    method UpsertTask()
      requires Valid()
      modifies this
      ensures Valid() && journal == old(journal) + [Upsert]
      ensures row == Some(if old(row).Some? then old(row).value else Row(Pending, None, "")) && events == old(events)
    {
      hide RowOf, EventsOf;
      if row.None? {
        row := Some(Row(Pending, None, ""));
      }
      journal := journal + [Upsert];
      Replayed(old(journal), Upsert);
    }

    method UpdateStatus(s: Status)
      requires Valid()
      modifies this
      ensures Valid() && journal == old(journal) + [SetStatus(s)]
      ensures row == (if old(row).None? then None else Some(Row(s, old(row).value.awaiting, old(row).value.review)))
      ensures events == old(events)
    {
      hide RowOf, EventsOf;
      if row.Some? {
        row := Some(row.value.(status := s));
      }
      journal := journal + [SetStatus(s)];
      Replayed(old(journal), SetStatus(s));
    }

    method UpdateAwaiting(s: Status, a: Option<Checkpoint>)
      requires Valid()
      modifies this
      ensures Valid() && journal == old(journal) + [SetAwaiting(s, a)]
      ensures row == (if old(row).None? then None else Some(Row(s, a, old(row).value.review))) && events == old(events)
    {
      hide RowOf, EventsOf;
      if row.Some? {
        row := Some(row.value.(status := s, awaiting := a));
      }
      journal := journal + [SetAwaiting(s, a)];
      Replayed(old(journal), SetAwaiting(s, a));
    }

    method UpdateReview(text: string)
      requires Valid()
      modifies this
      ensures Valid() && journal == old(journal) + [SetReview(text)]
      ensures row.Some? <==> old(row).Some?
      ensures row.Some? ==> row.value.status == old(row).value.status && row.value.awaiting == old(row).value.awaiting
      ensures row.Some? ==> row.value.review <= text && (|text| <= 4000 ==> row.value.review == text)
      ensures row.Some? && |text| > 4000 ==> |row.value.review| == 4000
      ensures events == old(events)
    {
      hide RowOf, EventsOf;
      if row.Some? {
        row := Some(row.value.(review := if |text| <= 4000 then text else text[..4000]));
      }
      journal := journal + [SetReview(text)];
      Replayed(old(journal), SetReview(text));
    }

    method AppendEvent(e: StoreEvent)
      requires Valid()
      modifies this
      ensures Valid() && journal == old(journal) + [Append(e)]
      ensures row == old(row) && events == old(events) + [e]
    {
      hide RowOf, EventsOf;
      events := events + [e];
      journal := journal + [Append(e)];
      Replayed(old(journal), Append(e));
    }
  }
}
