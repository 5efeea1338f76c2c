/** What the reviewers' answers decide, read off their own words. */
module Verdicts {
  import opened Numeric
  import opened Reviews

  // ---- where a status marker can hide

  /** A marker without line breaks lies on one side of a line break. */
  lemma MarkerPerLine(a: string, b: string, marker: string)
    requires |marker| > 0 && '\n' !in marker
    ensures HasMarker(a + "\n" + b, marker) <==> HasMarker(a, marker) || HasMarker(b, marker)
  {
    var text, gap := a + "\n" + b, |a| + 1;
    assert text[|a|] == '\n';
    assert forall j :: 0 <= j < |b| ==> text[gap + j] == b[j];
    if HasMarker(a, marker) {
      var i :| 0 <= i <= |a| && MatchesAt(a, marker, i);
      assert MatchesAt(text, marker, i);
    }
    if HasMarker(b, marker) {
      var i :| 0 <= i <= |b| && MatchesAt(b, marker, i);
      assert MatchesAt(text, marker, gap + i);
    }
    if HasMarker(text, marker) {
      var i :| 0 <= i <= |text| && MatchesAt(text, marker, i);
      if i + |marker| <= |a| {
        assert MatchesAt(a, marker, i);
      } else if i >= gap {
        forall k | 0 <= k < |marker|
          ensures UpperChar(b[i - gap + k]) == marker[k]
        {
          assert text[gap + (i - gap + k)] == b[i - gap + k];
        }
        assert MatchesAt(b, marker, i - gap);
      } else {
        assert UpperChar(text[i + (|a| - i)]) != marker[|a| - i];
      }
    }
  }

  lemma StatusPerLine(a: string, b: string, v: Verdict)
    ensures HasStatus(a + "\n" + b, v) <==> HasStatus(a, v) || HasStatus(b, v)
  {
    hide HasMarker;
    var m0, m1 := "STATUS: " + Word(v), "STATUS:" + Word(v);
    assert '\n' !in m0 && '\n' !in m1;
    MarkerPerLine(a, b, m0);
    MarkerPerLine(a, b, m1);
  }

  /** No colon of the text follows a U two characters back, as every status line's does. */
  predicate Unmarked(text: string) {
    forall j :: 0 <= j < |text| && text[j] == ':' ==> j < 2 || UpperChar(text[j - 2]) != 'U'
  }

  lemma UnmarkedLacks(text: string, marker: string)
    requires Unmarked(text) && |marker| > 6 && marker[4] == 'U' && marker[6] == ':'
    ensures !HasMarker(text, marker)
  {
    if i: nat :| i <= |text| && MatchesAt(text, marker, i) {
      MatchedChars(text, marker, i);
    }
  }

  lemma UnmarkedHasNone(text: string, v: Verdict)
    requires Unmarked(text)
    ensures !HasStatus(text, v)
  {
    hide Unmarked, HasMarker;
    UnmarkedLacks(text, "STATUS: " + Word(v));
    UnmarkedLacks(text, "STATUS:" + Word(v));
  }

  lemma LineLacks(line: string, marker: string)
    requires |line| > 8 && forall j :: 0 <= j < |line| && line[j] == ':' ==> j == 6
    requires |marker| > 8 && marker[6] == ':' && (marker[7] != UpperChar(line[7]) || marker[8] != UpperChar(line[8]))
    ensures !HasMarker(line, marker)
  {
    if i: nat :| i <= |line| && MatchesAt(line, marker, i) {
      MatchedChars(line, marker, i);
      assert line[i + 6] == ':';
    }
  }

  /** A status line says its own verdict and no other. */
  lemma StatusLineSays(v: Verdict, w: Verdict)
    ensures HasStatus("STATUS: " + Word(v), w) <==> v == w
  {
    hide HasMarker;
    var line := "STATUS: " + Word(v);
    if v == w {
      PrefixMarked(line, "", v);
      assert line + "" == line;
    } else {
      var m0, m1 := "STATUS: " + Word(w), "STATUS:" + Word(w);
      assert line[7] == ' ' && line[8] == Word(v)[0] && m0[8] == Word(w)[0] && m1[7] == Word(w)[0];
      LineLacks(line, m0);
      LineLacks(line, m1);
    }
  }

  // ---- one worker's chunks

  lemma AnyStatusConcat(a: seq<string>, b: seq<string>, v: Verdict)
    ensures AnyStatus(a + b, v) <==> AnyStatus(a, v) || AnyStatus(b, v)
  {
    hide HasStatus;
    if i :| 0 <= i < |a| && HasStatus(a[i], v) {
      assert (a + b)[i] == a[i];
    }
    if i :| 0 <= i < |b| && HasStatus(b[i], v) {
      assert (a + b)[|a| + i] == b[i];
    }
    if i :| 0 <= i < |a + b| && HasStatus((a + b)[i], v) {
      assert (a + b)[i] == if i < |a| then a[i] else b[i - |a|];
    }
  }

  lemma AnyOfOne(chunk: string, v: Verdict)
    ensures AnyStatus([chunk], v) <==> HasStatus(chunk, v)
  {
    hide HasStatus;
    assert [chunk][0] == chunk;
  }

  lemma NoneInNothing(v: Verdict)
    ensures !AnyStatus([], v)
  {
  }

  /** A reviewer's chunk says whatever the reviewer says; under a plain name it says nothing else. */
  lemma ReviewerSays(name: string, reply: Reply, v: Verdict)
    ensures HasStatus(reply.stdout, v) ==> AnyStatus(ChunksOfReviewer(name, reply), v)
    ensures !reply.ok ==> AnyStatus(ChunksOfReviewer(name, reply), Reject)
    ensures reply.ok && ':' !in name ==> (AnyStatus(ChunksOfReviewer(name, reply), v) <==> HasStatus(reply.stdout, v))
  {
    hide HasStatus, AnyStatus, RejectNote;
    var head := "=== reviewer: " + name + " ===";
    assert ReviewerChunk(name, reply) == head + "\n" + reply.stdout;
    StatusPerLine(head, reply.stdout, v);
    AnyOfOne(ReviewerChunk(name, reply), v);
    AnyOfOne(RejectNote(reply), Reject);
    AnyStatusConcat([ReviewerChunk(name, reply)], if reply.ok then [] else [RejectNote(reply)], v);
    AnyStatusConcat([ReviewerChunk(name, reply)], [RejectNote(reply)], Reject);
    NotesAreMarked(Persona("", ""), reply);
    if ':' !in name {
      UnmarkedHasNone(head, v);
    }
    assert [ReviewerChunk(name, reply)] + [] == [ReviewerChunk(name, reply)];
  }

  lemma PatchNoteSays(p: Persona, reply: Reply, v: Verdict)
    requires ':' !in p.name && ':' !in reply.stderr
    ensures HasStatus(PatchNote(p, reply), v) <==> v == NeedsPatch
  {
    hide HasStatus;
    var line, rest := "STATUS: NEEDS_PATCH", "FINDINGS:\n- " + p.name + " persona review failed: " + Prefix(reply.stderr, 300);
    assert PatchNote(p, reply) == line + "\n" + rest;
    StatusPerLine(line, rest, v);
    assert line == "STATUS: " + Word(NeedsPatch);
    StatusLineSays(NeedsPatch, v);
    UnmarkedHasNone(rest, v);
  }

  /** Likewise a persona with a lens; a failed one asks for a patch. A persona without a lens says nothing. */
  lemma PersonaSays(p: Persona, reply: Reply, v: Verdict)
    ensures p.name !in {"architecture", "security"} ==> !AnyStatus(ChunksOfPersona(p, reply), v)
    ensures p.name in {"architecture", "security"} ==>
      && (HasStatus(reply.stdout, v) ==> AnyStatus(ChunksOfPersona(p, reply), v))
      && (!reply.ok ==> AnyStatus(ChunksOfPersona(p, reply), NeedsPatch))
      && (':' !in p.reviewer && (reply.ok || ':' !in reply.stderr) ==>
           (AnyStatus(ChunksOfPersona(p, reply), v) <==> HasStatus(reply.stdout, v) || (v == NeedsPatch && !reply.ok)))
  {
    hide HasStatus, AnyStatus, PatchNote;
    if p.name in LENSES {
      var head := "=== persona reviewer: " + p.name + " (" + p.reviewer + ") ===";
      assert PersonaChunk(p, reply) == head + "\n" + reply.stdout;
      StatusPerLine(head, reply.stdout, v);
      AnyOfOne(PersonaChunk(p, reply), v);
      AnyOfOne(PatchNote(p, reply), v);
      AnyOfOne(PatchNote(p, reply), NeedsPatch);
      AnyStatusConcat([PersonaChunk(p, reply)], [PatchNote(p, reply)], v);
      AnyStatusConcat([PersonaChunk(p, reply)], [PatchNote(p, reply)], NeedsPatch);
      NotesAreMarked(p, reply);
      assert [PersonaChunk(p, reply)] + [] == [PersonaChunk(p, reply)];
      if ':' !in p.reviewer {
        UnmarkedHasNone(head, v);
        if ':' !in reply.stderr {
          PatchNoteSays(p, reply, v);
        }
      }
    } else {
      assert ChunksOfPersona(p, reply) == [];
      NoneInNothing(v);
    }
  }

  // ---- the whole panel, when workers are called

  /** A worker that is asked says v: a reviewer, or a persona with a lens. */
  ghost predicate SomeoneSays(p: Panel, r: Replies, v: Verdict) {
    || (exists i: nat :: i < |p.reviewers| && HasStatus(r.plain(i).stdout, v))
    || (exists i: nat :: i < |p.personas| && p.personas[i].name in {"architecture", "security"} && HasStatus(r.persona(i).stdout, v))
  }

  ghost predicate ReviewerFailed(p: Panel, r: Replies) {
    exists i: nat :: i < |p.reviewers| && !r.plain(i).ok
  }

  ghost predicate LensFailed(p: Panel, r: Replies) {
    exists i: nat :: i < |p.personas| && p.personas[i].name in {"architecture", "security"} && !r.persona(i).ok
  }

  /** No colon in a worker's name or in a failed persona's error text, so neither can look like a status line. */
  ghost predicate Plain(p: Panel, r: Replies) {
    && (forall i: nat :: i < |p.reviewers| ==> ':' !in p.reviewers[i])
    && (forall i: nat :: i < |p.personas| ==> ':' !in p.personas[i].reviewer && (r.persona(i).ok || ':' !in r.persona(i).stderr))
  }

  lemma {:induction false} PlainMarks(p: Panel, r: Replies, status: Verdict, v: Verdict, n: nat)
    requires n <= |p.reviewers|
    ensures AnyStatus(PlainChunks(p, r, false, status, n), v) <==>
      exists i: nat :: i < n && AnyStatus(ChunksOfReviewer(p.reviewers[i], r.plain(i)), v)
  {
    hide AnyStatus, ChunksOfReviewer;
    if n == 0 {
      NoneInNothing(v);
    } else {
      PlainMarks(p, r, status, v, n - 1);
      AnyStatusConcat(PlainChunks(p, r, false, status, n - 1), ChunksOfReviewer(p.reviewers[n - 1], r.plain(n - 1)), v);
    }
  }

  lemma {:induction false} PersonaMarks(p: Panel, r: Replies, status: Verdict, v: Verdict, n: nat)
    requires n <= |p.personas|
    ensures AnyStatus(PersonaChunks(p, r, false, status, n), v) <==>
      exists i: nat :: i < n && AnyStatus(ChunksOfPersona(p.personas[i], r.persona(i)), v)
  {
    hide AnyStatus, ChunksOfPersona;
    if n == 0 {
      NoneInNothing(v);
    } else {
      PersonaMarks(p, r, status, v, n - 1);
      AnyStatusConcat(PersonaChunks(p, r, false, status, n - 1), ChunksOfPersona(p.personas[n - 1], r.persona(n - 1)), v);
    }
  }

  lemma AnyIsSome(chunks: seq<string>, v: Verdict)
    ensures AnyStatus(chunks, v) <==> exists i :: 0 <= i < |chunks| && HasStatus(chunks[i], v)
  {
  }

  /** What the transcript says, worker by worker. */
  lemma TranscriptSays(p: Panel, r: Replies, status: Verdict, v: Verdict)
    requires p.reviewers != []
    ensures HasStatus(ReviewText(p, r, false, status), v) <==>
      || (exists i: nat :: i < |p.reviewers| && AnyStatus(ChunksOfReviewer(p.reviewers[i], r.plain(i)), v))
      || (exists i: nat :: i < |p.personas| && AnyStatus(ChunksOfPersona(p.personas[i], r.persona(i)), v))
  {
    hide AnyStatus, HasStatus, ChunksOfReviewer, ChunksOfPersona, PlainChunks, PersonaChunks;
    JoinHasStatus(Chunks(p, r, false, status), v);
    AnyIsSome(Chunks(p, r, false, status), v);
    AnyStatusConcat(PlainChunks(p, r, false, status, |p.reviewers|), PersonaChunks(p, r, false, status, |p.personas|), v);
    PlainMarks(p, r, status, v, |p.reviewers|);
    PersonaMarks(p, r, status, v, |p.personas|);
  }

  /** Whatever an asked worker says is in the transcript; a failed reviewer rejects, a failed persona asks for a patch. */
  lemma WorkersAreHeard(p: Panel, r: Replies, status: Verdict)
    requires p.reviewers != []
    ensures forall v :: SomeoneSays(p, r, v) ==> HasStatus(ReviewText(p, r, false, status), v)
    ensures ReviewerFailed(p, r) ==> HasStatus(ReviewText(p, r, false, status), Reject)
    ensures LensFailed(p, r) ==> HasStatus(ReviewText(p, r, false, status), NeedsPatch)
  {
    hide AnyStatus, HasStatus, ChunksOfReviewer, ChunksOfPersona, ReviewText;
    forall v
      ensures SomeoneSays(p, r, v) ==> HasStatus(ReviewText(p, r, false, status), v)
    {
      TranscriptSays(p, r, status, v);
      if i: nat :| i < |p.reviewers| && HasStatus(r.plain(i).stdout, v) {
        ReviewerSays(p.reviewers[i], r.plain(i), v);
      }
      if i: nat :| i < |p.personas| && p.personas[i].name in {"architecture", "security"} && HasStatus(r.persona(i).stdout, v) {
        PersonaSays(p.personas[i], r.persona(i), v);
      }
    }
    if i: nat :| i < |p.reviewers| && !r.plain(i).ok {
      TranscriptSays(p, r, status, Reject);
      ReviewerSays(p.reviewers[i], r.plain(i), Reject);
    }
    if i: nat :| i < |p.personas| && p.personas[i].name in {"architecture", "security"} && !r.persona(i).ok {
      TranscriptSays(p, r, status, NeedsPatch);
      PersonaSays(p.personas[i], r.persona(i), NeedsPatch);
    }
  }

  /**
   * With any names and any output: one failed reviewer, or one REJECT from any asked worker, makes
   * the verdict REJECT; and CLEAN means that every asked worker answered and none of them said
   * REJECT or NEEDS_PATCH.
   */
  lemma RepliesDecide(h: Heuristics, p: Panel, r: Replies, status: Verdict)
    requires p.reviewers != []
    ensures var verdict := CombinedStatus(h, ReviewText(p, r, false, status));
      && (ReviewerFailed(p, r) || SomeoneSays(p, r, Reject) ==> verdict == Reject)
      && (verdict == Clean ==>
           !ReviewerFailed(p, r) && !LensFailed(p, r) && !SomeoneSays(p, r, Reject) && !SomeoneSays(p, r, NeedsPatch))
  {
    hide HasStatus, ReviewText, SomeoneSays, ReviewerFailed, LensFailed;
    WorkersAreHeard(p, r, status);
  }

  /** Under plain names the transcript says nothing the workers do not. */
  lemma NothingElseIsHeard(p: Panel, r: Replies, status: Verdict, v: Verdict)
    requires p.reviewers != [] && Plain(p, r) && !ReviewerFailed(p, r)
    requires HasStatus(ReviewText(p, r, false, status), v)
    ensures SomeoneSays(p, r, v) || (v == NeedsPatch && LensFailed(p, r))
  {
    hide AnyStatus, HasStatus, ChunksOfReviewer, ChunksOfPersona, ReviewText;
    TranscriptSays(p, r, status, v);
    if i: nat :| i < |p.reviewers| && AnyStatus(ChunksOfReviewer(p.reviewers[i], r.plain(i)), v) {
      ReviewerSays(p.reviewers[i], r.plain(i), v);
    } else {
      var i: nat :| i < |p.personas| && AnyStatus(ChunksOfPersona(p.personas[i], r.persona(i)), v);
      PersonaSays(p.personas[i], r.persona(i), v);
    }
  }

  /**
   * The verdict of a panel, from the workers' own words alone: the most severe status any of them
   * gives, failures counted, and without any status the prose reading of the whole transcript,
   * CLEAN when prose says nothing and no blocker is named.
   */
  lemma PanelVerdictIs(h: Heuristics, p: Panel, r: Replies, status: Verdict)
    requires p.reviewers != [] && Plain(p, r)
    ensures var text := ReviewText(p, r, false, status);
      CombinedStatus(h, text) ==
        if ReviewerFailed(p, r) || SomeoneSays(p, r, Reject) then Reject
        else if LensFailed(p, r) || SomeoneSays(p, r, NeedsPatch) then NeedsPatch
        else if SomeoneSays(p, r, Clean) then Clean
        else if h.prose(text).Some? then h.prose(text).value
        else if h.blocking(text) then NeedsPatch
        else Clean
  {
    hide HasStatus, ReviewText, SomeoneSays, ReviewerFailed, LensFailed, Plain;
    var text := ReviewText(p, r, false, status);
    WorkersAreHeard(p, r, status);
    if !ReviewerFailed(p, r) {
      forall v | HasStatus(text, v)
        ensures SomeoneSays(p, r, v) || (v == NeedsPatch && LensFailed(p, r))
      {
        NothingElseIsHeard(p, r, status, v);
      }
    }
  }

  // ---- a dry run

  function Stub(status: Verdict, who: string): Reply {
    Reply(true, "STATUS: " + Word(status) + "\nFINDINGS:\n- [dry-run " + who + "]", "")
  }

  /** What a dry run puts in place of the workers' answers. */
  function Stubs(p: Panel, status: Verdict): Replies {
    Replies((i: nat) => if i < |p.reviewers| then Stub(status, "via " + p.reviewers[i]) else Reply(true, "", ""),
            (i: nat) => if i < |p.personas| then Stub(status, p.personas[i].name + " persona via " + p.personas[i].reviewer) else Reply(true, "", ""))
  }

  lemma {:induction false} StubbedPlain(p: Panel, r: Replies, status: Verdict, n: nat)
    requires n <= |p.reviewers|
    ensures PlainChunks(p, r, true, status, n) == PlainChunks(p, Stubs(p, status), false, status, n)
  {
    hide ChunksOfReviewer;
    if n > 0 {
      StubbedPlain(p, r, status, n - 1);
    }
  }

  lemma {:induction false} StubbedPersonas(p: Panel, r: Replies, status: Verdict, n: nat)
    requires n <= |p.personas|
    ensures PersonaChunks(p, r, true, status, n) == PersonaChunks(p, Stubs(p, status), false, status, n)
  {
    hide ChunksOfPersona;
    if n > 0 {
      StubbedPersonas(p, r, status, n - 1);
    }
  }

  lemma StubsOk(p: Panel, status: Verdict)
    ensures !ReviewerFailed(p, Stubs(p, status)) && !LensFailed(p, Stubs(p, status))
  {
  }

  lemma StubSays(status: Verdict, who: string, v: Verdict)
    requires ':' !in who
    ensures HasStatus(Stub(status, who).stdout, v) <==> v == status
  {
    hide HasStatus;
    var line, rest := "STATUS: " + Word(status), "FINDINGS:\n- [dry-run " + who + "]";
    assert Stub(status, who).stdout == line + "\n" + rest;
    StatusPerLine(line, rest, v);
    StatusLineSays(status, v);
    UnmarkedHasNone(rest, v);
  }

  /** In a dry run nobody is asked: the verdict is the one the stubs were given, whatever the workers would say. */
  lemma DryPanelVerdict(h: Heuristics, p: Panel, r: Replies, status: Verdict)
    requires p.reviewers != [] && Plain(p, Stubs(p, status))
    requires forall i: nat :: i < |p.personas| ==> ':' !in p.personas[i].name
    ensures CombinedStatus(h, ReviewText(p, r, true, status)) == status
  {
    hide HasStatus, PlainChunks, PersonaChunks, Stub, CombinedStatus;
    var stubs := Stubs(p, status);
    StubbedPlain(p, r, status, |p.reviewers|);
    StubbedPersonas(p, r, status, |p.personas|);
    assert ReviewText(p, r, true, status) == ReviewText(p, stubs, false, status);
    forall v
      ensures SomeoneSays(p, stubs, v) <==> v == status
    {
      forall i: nat | i < |p.reviewers|
        ensures HasStatus(stubs.plain(i).stdout, v) <==> v == status
      {
        StubSays(status, "via " + p.reviewers[i], v);
      }
      forall i: nat | i < |p.personas|
        ensures HasStatus(stubs.persona(i).stdout, v) <==> v == status
      {
        StubSays(status, p.personas[i].name + " persona via " + p.personas[i].reviewer, v);
      }
      assert HasStatus(stubs.plain(0).stdout, v) <==> v == status;
    }
    StubsOk(p, status);
    PanelVerdictIs(h, p, stubs, status);
  }
}
