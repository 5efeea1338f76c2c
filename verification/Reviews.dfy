/** Running reviewers and aggregating their transcripts into one verdict. */
module Reviews {
  import opened Numeric

  datatype Verdict = Clean | NeedsPatch | Reject

  datatype Reply = Reply(ok: bool, stdout: string, stderr: string)

  datatype Persona = Persona(name: string, reviewer: string)

  /** Who reviews, after the cross-model swap. */
  datatype Panel = Panel(reviewers: seq<string>, personas: seq<Persona>)

  /** The answers of one round's workers, by position. */
  datatype Replies = Replies(plain: nat -> Reply, persona: nat -> Reply)

  /** The keyword heuristics, as arbitrary functions of the transcript. */
  datatype Heuristics = Heuristics(prose: string -> Option<Verdict>, blocking: string -> bool, caveat: string -> bool)

  // ---- the cross-model swap

  function CrossModel(reviewer: string, implementer: string): string {
    if reviewer != implementer then reviewer
    else if reviewer == "claude_code" then "codex"
    else if reviewer == "codex" then "claude_code"
    else reviewer
  }

  function Resolve(names: seq<string>, implementer: string): seq<string> {
    if names == [] then []
    else if names[0] == "none" then Resolve(names[1..], implementer)
    else [CrossModel(names[0], implementer)] + Resolve(names[1..], implementer)
  }

  /** A reviewer of the implementer's own family is swapped for the other family; everyone else stays. */
  lemma CrossModelIs(reviewer: string, implementer: string)
    ensures var other := CrossModel(reviewer, implementer);
      if reviewer == implementer && reviewer in {"claude_code", "codex"} then {reviewer, other} == {"claude_code", "codex"}
      else other == reviewer
  {
  }

  /** The panel keeps the configured order, one reviewer per name that is not "none". */
  lemma {:induction false} ResolveIs(a: seq<string>, b: seq<string>, name: string, implementer: string)
    ensures Resolve([name], implementer) == if name == "none" then [] else [CrossModel(name, implementer)]
    ensures Resolve(a + b, implementer) == Resolve(a, implementer) + Resolve(b, implementer)
    decreases |a|
  {
    hide CrossModel;
    assert [name][1..] == [];
    if a == [] {
      assert a + b == b;
    } else {
      assert (a + b)[1..] == a[1..] + b;
      ResolveIs(a[1..], b, name, implementer);
    }
  }

  /**
   * No resolved reviewer is the implementer exactly when the implementer belongs to one of the
   * two swappable families, or is not configured as a reviewer at all.
   */
  lemma {:induction false} NoSelfReviewIff(names: seq<string>, implementer: string)
    ensures implementer !in Resolve(names, implementer) <==>
      implementer in {"claude_code", "codex"} || implementer == "none" || implementer !in names
  {
    if names != [] {
      NoSelfReviewIff(names[1..], implementer);
      assert names == [names[0]] + names[1..];
    }
  }

  // ---- transcripts

  function UpperChar(c: char): char {
    if 'a' <= c <= 'z' then (c as int - 32) as char else c
  }

  /** Lower-case letters become the capitals in the same place of the alphabet; nothing else changes. */
  lemma UpperCharIs(c: char)
    ensures 'a' <= c <= 'z' ==> 'A' <= UpperChar(c) <= 'Z' && UpperChar(c) as int - 'A' as int == c as int - 'a' as int
    ensures !('a' <= c <= 'z') ==> UpperChar(c) == c
  {
  }

  predicate MatchesAt(text: string, marker: string, i: nat) {
    i + |marker| <= |text| && forall k :: 0 <= k < |marker| ==> UpperChar(text[i + k]) == marker[k]
  }

  /** `marker in text.upper()`. */
  predicate HasMarker(text: string, marker: string) {
    exists i :: 0 <= i <= |text| && MatchesAt(text, marker, i)
  }

  function Word(v: Verdict): string {
    match v
    case Clean => "CLEAN"
    case NeedsPatch => "NEEDS_PATCH"
    case Reject => "REJECT"
  }

  /** The transcript carries a structured status line for v. */
  predicate HasStatus(text: string, v: Verdict) {
    HasMarker(text, "STATUS: " + Word(v)) || HasMarker(text, "STATUS:" + Word(v))
  }

  lemma CapitalsMatch(text: string, marker: string)
    requires |text| == |marker| && forall k :: 0 <= k < |text| ==> UpperChar(text[k]) == marker[k]
    ensures HasMarker(text, marker)
  {
    assert MatchesAt(text, marker, 0);
  }

  /** Status lines are read in either case, with or without the blank. */
  lemma AnyCaseCounts()
    ensures HasStatus("status: clean", Clean) && HasStatus("Status:Needs_Patch", NeedsPatch) && HasStatus("STATUS: reject", Reject)
  {
    hide HasMarker;
    CapitalsMatch("status: clean", "STATUS: " + Word(Clean));
    CapitalsMatch("Status:Needs_Patch", "STATUS:" + Word(NeedsPatch));
    CapitalsMatch("STATUS: reject", "STATUS: " + Word(Reject));
  }

  predicate Marked(text: string) {
    HasStatus(text, Reject) || HasStatus(text, NeedsPatch) || HasStatus(text, Clean)
  }

  /** `_combined_review_status`. */
  function CombinedStatus(h: Heuristics, text: string): Verdict {
    if HasStatus(text, Reject) then Reject
    else if HasStatus(text, NeedsPatch) then NeedsPatch
    else if HasStatus(text, Clean) then Clean
    else match h.prose(text)
      case Some(v) => v
      case None => if h.blocking(text) then NeedsPatch else Clean
  }

  const SEPARATOR: string := "\n\n"

  function Join(chunks: seq<string>): string {
    if chunks == [] then ""
    else if |chunks| == 1 then chunks[0]
    else chunks[0] + SEPARATOR + Join(chunks[1..])
  }

  /** A marker without line breaks cannot straddle the separator between two texts. */
  lemma MarkerInPair(a: string, b: string, marker: string)
    requires |marker| > 0 && '\n' !in marker
    ensures HasMarker(a + SEPARATOR + b, marker) <==> HasMarker(a, marker) || HasMarker(b, marker)
  {
    var text, gap := a + SEPARATOR + b, |a| + 2;
    assert text[|a|] == '\n' && text[|a| + 1] == '\n';
    assert forall j :: 0 <= j < |b| ==> text[gap + j] == b[j];
    if HasMarker(a, marker) {
      var i :| 0 <= i <= |a| && MatchesAt(a, marker, i);
      assert MatchesAt(text, marker, i);
    }
    if HasMarker(b, marker) {
      var i :| 0 <= i <= |b| && MatchesAt(b, marker, i);
      assert MatchesAt(text, marker, gap + i);
    }
    if HasMarker(text, marker) {
      var i :| 0 <= i <= |text| && MatchesAt(text, marker, i);
      if i + |marker| <= |a| {
        assert MatchesAt(a, marker, i);
      } else if i >= gap {
        forall k | 0 <= k < |marker|
          ensures UpperChar(b[i - gap + k]) == marker[k]
        {
          assert text[gap + (i - gap + k)] == b[i - gap + k];
        }
        assert MatchesAt(b, marker, i - gap);
      } else {
        var j := if i <= |a| then |a| else |a| + 1;
        assert UpperChar(text[i + (j - i)]) != marker[j - i];
      }
    }
  }

  lemma NothingInEmpty(marker: string)
    requires |marker| > 0
    ensures !HasMarker("", marker)
  {
  }

  /** So the joined transcript carries a marker exactly when one of its chunks does. */
  lemma {:induction false} JoinHasMarker(chunks: seq<string>, marker: string)
    requires |marker| > 0 && '\n' !in marker
    ensures HasMarker(Join(chunks), marker) <==> exists i :: 0 <= i < |chunks| && HasMarker(chunks[i], marker)
  {
    hide HasMarker;
    if chunks == [] {
      assert !HasMarker("", marker) by { NothingInEmpty(marker); }
    } else if |chunks| > 1 {
      var rest := chunks[1..];
      MarkerInPair(chunks[0], Join(rest), marker);
      JoinHasMarker(rest, marker);
      assert forall i :: 0 <= i < |rest| ==> rest[i] == chunks[i + 1];
      if i :| 1 <= i < |chunks| && HasMarker(chunks[i], marker) {
        assert rest[i - 1] == chunks[i];
      }
    }
  }

  lemma JoinHasStatus(chunks: seq<string>, v: Verdict)
    ensures HasStatus(Join(chunks), v) <==> exists i :: 0 <= i < |chunks| && HasStatus(chunks[i], v)
  {
    hide HasMarker;
    var m0, m1 := "STATUS: " + Word(v), "STATUS:" + Word(v);
    assert '\n' !in m0 && '\n' !in m1;
    JoinHasMarker(chunks, m0);
    JoinHasMarker(chunks, m1);
    if HasStatus(Join(chunks), v) {
      var i :| 0 <= i < |chunks| && (HasMarker(chunks[i], m0) || HasMarker(chunks[i], m1));
      assert HasStatus(chunks[i], v);
    }
    if i :| 0 <= i < |chunks| && HasStatus(chunks[i], v) {
      assert HasMarker(chunks[i], m0) || HasMarker(chunks[i], m1);
    }
  }

  // ---- what the aggregate means

  predicate SomeVerdict(h: Heuristics, chunks: seq<string>, v: Verdict) {
    exists i :: 0 <= i < |chunks| && CombinedStatus(h, chunks[i]) == v
  }

  /** The most severe verdict any single transcript carries on its own. */
  function Worst(h: Heuristics, chunks: seq<string>): Verdict {
    if SomeVerdict(h, chunks, Reject) then Reject
    else if SomeVerdict(h, chunks, NeedsPatch) then NeedsPatch
    else Clean
  }

  predicate AnyStatus(chunks: seq<string>, v: Verdict) {
    exists i :: 0 <= i < |chunks| && HasStatus(chunks[i], v)
  }

  predicate AllMarked(chunks: seq<string>) {
    forall i :: 0 <= i < |chunks| ==> Marked(chunks[i])
  }

  predicate AggregatesToWorst(h: Heuristics, chunks: seq<string>) {
    CombinedStatus(h, Join(chunks)) == Worst(h, chunks)
  }

  lemma AggregateIsWorst(h: Heuristics, chunks: seq<string>)
    requires |chunks| > 0
    requires |chunks| == 1 || AnyStatus(chunks, Reject) || AllMarked(chunks)
    ensures AggregatesToWorst(h, chunks)
  {
    hide HasStatus;
    if |chunks| == 1 {
      assert CombinedStatus(h, chunks[0]) == CombinedStatus(h, Join(chunks));
    } else {
      JoinHasStatus(chunks, Reject);
      JoinHasStatus(chunks, NeedsPatch);
      JoinHasStatus(chunks, Clean);
      if AnyStatus(chunks, Reject) {
        var i :| 0 <= i < |chunks| && HasStatus(chunks[i], Reject);
        assert CombinedStatus(h, chunks[i]) == Reject;
      } else if AnyStatus(chunks, NeedsPatch) {
        var i :| 0 <= i < |chunks| && HasStatus(chunks[i], NeedsPatch);
        assert CombinedStatus(h, chunks[i]) == NeedsPatch;
        assert !SomeVerdict(h, chunks, Reject);
      } else {
        assert HasStatus(chunks[0], Clean);
        assert !SomeVerdict(h, chunks, Reject) && !SomeVerdict(h, chunks, NeedsPatch);
      }
    }
  }

  lemma JoinIsLonger(chunks: seq<string>, i: nat)
    requires |chunks| > 1 && i < |chunks|
    ensures |Join(chunks)| > |chunks[i]|
  {
    if i > 0 {
      var rest := chunks[1..];
      assert rest[i - 1] == chunks[i];
      if |rest| > 1 {
        JoinIsLonger(rest, i - 1);
      }
    }
  }

  lemma AggregateTooMild(chunks: seq<string>)
    requires |chunks| > 1 && !AnyStatus(chunks, Reject) && !AllMarked(chunks)
    ensures exists h: Heuristics :: !AggregatesToWorst(h, chunks)
  {
    hide HasStatus;
    var i :| 0 <= i < |chunks| && !Marked(chunks[i]);
    var u := chunks[i];
    var h := Heuristics(t => if t == u then Some(Reject) else Some(Clean), t => false, t => false);
    JoinHasStatus(chunks, Reject);
    JoinIsLonger(chunks, i);
    assert CombinedStatus(h, u) == Reject;
    assert SomeVerdict(h, chunks, Reject);
    assert CombinedStatus(h, Join(chunks)) != Reject;
    assert !AggregatesToWorst(h, chunks);
  }

  /**
   * The aggregation is conservative (never milder than its most severe transcript) for every
   * reading of unmarked prose exactly when there is one transcript, or some transcript carries a
   * structured REJECT, or all of them carry a structured status.
   */
  lemma WorstVerdictIff(chunks: seq<string>)
    requires |chunks| > 0
    ensures (forall h: Heuristics :: AggregatesToWorst(h, chunks)) <==>
      |chunks| == 1 || AnyStatus(chunks, Reject) || AllMarked(chunks)
  {
    if |chunks| == 1 || AnyStatus(chunks, Reject) || AllMarked(chunks) {
      forall h: Heuristics
        ensures AggregatesToWorst(h, chunks)
      {
        AggregateIsWorst(h, chunks);
      }
    } else {
      AggregateTooMild(chunks);
    }
  }

  // ---- running the panel

  const LENSES: set<string> := {"architecture", "security"}

  const REVIEW_DISABLED: string := "STATUS: CLEAN" + "\nFINDINGS:\n- review disabled"

  /** In a dry run workers are not called; a stub reply with the given status stands in. */
  function ReplyOf(dryRun: bool, status: Verdict, who: string, reply: Reply): Reply {
    if dryRun then Reply(true, "STATUS: " + Word(status) + "\nFINDINGS:\n- [dry-run " + who + "]", "")
    else reply
  }

  function Prefix(s: string, n: nat): (r: string)
    ensures r <= s && (|s| <= n ==> r == s) && (|s| > n ==> |r| == n)
  {
    if |s| <= n then s else s[..n]
  }

  function ReviewerChunk(name: string, reply: Reply): string {
    "=== reviewer: " + name + " ===\n" + reply.stdout
  }

  function RejectNote(reply: Reply): string {
    "STATUS: REJECT" + ("\nFINDINGS:\n- reviewer failed: " + Prefix(reply.stderr, 400))
  }

  function PersonaChunk(p: Persona, reply: Reply): string {
    "=== persona reviewer: " + p.name + " (" + p.reviewer + ") ===\n" + reply.stdout
  }

  function PatchNote(p: Persona, reply: Reply): string {
    "STATUS: NEEDS_PATCH" + ("\nFINDINGS:\n- " + p.name + " persona review failed: " + Prefix(reply.stderr, 300))
  }

  function ChunksOfReviewer(name: string, reply: Reply): seq<string> {
    [ReviewerChunk(name, reply)] + if reply.ok then [] else [RejectNote(reply)]
  }

  function ChunksOfPersona(p: Persona, reply: Reply): seq<string> {
    if p.name !in LENSES then []
    else [PersonaChunk(p, reply)] + if reply.ok then [] else [PatchNote(p, reply)]
  }

  function PlainReply(p: Panel, r: Replies, dryRun: bool, status: Verdict, i: nat): Reply
    requires i < |p.reviewers|
  {
    ReplyOf(dryRun, status, "via " + p.reviewers[i], r.plain(i))
  }

  function PersonaReply(p: Panel, r: Replies, dryRun: bool, status: Verdict, i: nat): Reply
    requires i < |p.personas|
  {
    ReplyOf(dryRun, status, p.personas[i].name + " persona via " + p.personas[i].reviewer, r.persona(i))
  }

  function PlainChunks(p: Panel, r: Replies, dryRun: bool, status: Verdict, n: nat): seq<string>
    requires n <= |p.reviewers|
  {
    if n == 0 then []
    else PlainChunks(p, r, dryRun, status, n - 1) + ChunksOfReviewer(p.reviewers[n - 1], PlainReply(p, r, dryRun, status, n - 1))
  }

  function PersonaChunks(p: Panel, r: Replies, dryRun: bool, status: Verdict, n: nat): seq<string>
    requires n <= |p.personas|
  {
    if n == 0 then []
    else PersonaChunks(p, r, dryRun, status, n - 1) + ChunksOfPersona(p.personas[n - 1], PersonaReply(p, r, dryRun, status, n - 1))
  }

  function Chunks(p: Panel, r: Replies, dryRun: bool, status: Verdict): seq<string> {
    PlainChunks(p, r, dryRun, status, |p.reviewers|) + PersonaChunks(p, r, dryRun, status, |p.personas|)
  }

  /** The combined transcript; without reviewers nobody is asked, personas included. */
  function ReviewText(p: Panel, r: Replies, dryRun: bool, status: Verdict): string {
    if p.reviewers == [] then REVIEW_DISABLED else Join(Chunks(p, r, dryRun, status))
  }

  method AppendReviewer(chunks: seq<string>, name: string, reply: Reply) returns (longer: seq<string>)
    ensures longer == chunks + ChunksOfReviewer(name, reply)
  {
    longer := chunks + [ReviewerChunk(name, reply)];
    if !reply.ok {
      longer := longer + [RejectNote(reply)];
    }
  }

  method AppendPersona(chunks: seq<string>, persona: Persona, reply: Reply) returns (longer: seq<string>)
    ensures longer == chunks + ChunksOfPersona(persona, reply)
  {
    hide PersonaChunk, PatchNote;
    longer := chunks;
    if persona.name in LENSES {
      longer := longer + [PersonaChunk(persona, reply)];
      if !reply.ok {
        longer := longer + [PatchNote(persona, reply)];
      }
    }
  }

  method CollectChunks(p: Panel, r: Replies, dryRun: bool, status: Verdict) returns (chunks: seq<string>)
    ensures chunks == Chunks(p, r, dryRun, status)
  {
    hide PlainReply, PersonaReply, ChunksOfReviewer, ChunksOfPersona;
    chunks := [];
    for i := 0 to |p.reviewers|
      invariant chunks == PlainChunks(p, r, dryRun, status, i)
    {
      var reply := PlainReply(p, r, dryRun, status, i);
      chunks := AppendReviewer(chunks, p.reviewers[i], reply);
    }
    ghost var plain := chunks;
    for i := 0 to |p.personas|
      invariant chunks == plain + PersonaChunks(p, r, dryRun, status, i)
    {
      var reply := PersonaReply(p, r, dryRun, status, i);
      chunks := AppendPersona(chunks, p.personas[i], reply);
    }
  }

  /** `_run_reviewers`: one pass per reviewer, then one per persona with a known lens. */
  method RunReviewers(p: Panel, r: Replies, dryRun: bool, status: Verdict) returns (text: string)
    ensures text == ReviewText(p, r, dryRun, status)
  {
    hide PlainChunks, PersonaChunks, Join;
    if p.reviewers == [] {
      return REVIEW_DISABLED;
    }
    var chunks := CollectChunks(p, r, dryRun, status);
    text := Join(chunks);
  }

  // ---- what a clean panel implies

  lemma PrefixMarked(prefix: string, rest: string, v: Verdict)
    requires prefix == "STATUS: " + Word(v)
    ensures HasStatus(prefix + rest, v)
  {
    assert MatchesAt(prefix + rest, prefix, 0);
  }

  lemma NotesAreMarked(p: Persona, reply: Reply)
    ensures HasStatus(RejectNote(reply), Reject) && HasStatus(PatchNote(p, reply), NeedsPatch)
  {
    PrefixMarked("STATUS: REJECT", "\nFINDINGS:\n- reviewer failed: " + Prefix(reply.stderr, 400), Reject);
    PrefixMarked("STATUS: NEEDS_PATCH", "\nFINDINGS:\n- " + p.name + " persona review failed: " + Prefix(reply.stderr, 300), NeedsPatch);
  }

  lemma {:induction false} PlainChunkIn(p: Panel, r: Replies, dryRun: bool, status: Verdict, i: nat, n: nat)
    requires i < n <= |p.reviewers| && !PlainReply(p, r, dryRun, status, i).ok
    ensures RejectNote(PlainReply(p, r, dryRun, status, i)) in PlainChunks(p, r, dryRun, status, n)
  {
    hide RejectNote, ReviewerChunk, PlainReply;
    if i < n - 1 {
      PlainChunkIn(p, r, dryRun, status, i, n - 1);
    }
  }

  lemma {:induction false} PersonaChunkIn(p: Panel, r: Replies, dryRun: bool, status: Verdict, i: nat, n: nat)
    requires i < n <= |p.personas| && p.personas[i].name in LENSES && !PersonaReply(p, r, dryRun, status, i).ok
    ensures PatchNote(p.personas[i], PersonaReply(p, r, dryRun, status, i)) in PersonaChunks(p, r, dryRun, status, n)
  {
    hide PatchNote, PersonaChunk, PersonaReply;
    if i < n - 1 {
      PersonaChunkIn(p, r, dryRun, status, i, n - 1);
    }
  }

  /**
   * A panel combines to CLEAN only if every reviewer and every lensed persona answered, and
   * none of their transcripts carries a structured REJECT or NEEDS_PATCH. A failed reviewer
   * always combines to REJECT.
   */
  lemma PanelVerdict(h: Heuristics, p: Panel, r: Replies, dryRun: bool, status: Verdict)
    requires p.reviewers != []
    ensures (exists i: nat :: i < |p.reviewers| && !PlainReply(p, r, dryRun, status, i).ok) ==>
      CombinedStatus(h, ReviewText(p, r, dryRun, status)) == Reject
    ensures CombinedStatus(h, ReviewText(p, r, dryRun, status)) == Clean ==>
      && (forall i: nat :: i < |p.reviewers| ==> PlainReply(p, r, dryRun, status, i).ok)
      && (forall i: nat :: i < |p.personas| && p.personas[i].name in LENSES ==> PersonaReply(p, r, dryRun, status, i).ok)
      && !AnyStatus(Chunks(p, r, dryRun, status), Reject) && !AnyStatus(Chunks(p, r, dryRun, status), NeedsPatch)
  {
    hide HasStatus, PlainChunks, PersonaChunks, PlainReply, PersonaReply, RejectNote, PatchNote;
    var chunks := Chunks(p, r, dryRun, status);
    JoinHasStatus(chunks, Reject);
    JoinHasStatus(chunks, NeedsPatch);
    if i: nat :| i < |p.reviewers| && !PlainReply(p, r, dryRun, status, i).ok {
      var reply := PlainReply(p, r, dryRun, status, i);
      PlainChunkIn(p, r, dryRun, status, i, |p.reviewers|);
      NotesAreMarked(Persona("", ""), reply);
      assert RejectNote(reply) in chunks;
    }
    if i: nat :| i < |p.personas| && p.personas[i].name in LENSES && !PersonaReply(p, r, dryRun, status, i).ok {
      var reply := PersonaReply(p, r, dryRun, status, i);
      PersonaChunkIn(p, r, dryRun, status, i, |p.personas|);
      NotesAreMarked(p.personas[i], reply);
      assert PatchNote(p.personas[i], reply) in chunks;
    }
  }

  lemma DisabledColons(j: nat)
    requires j < |REVIEW_DISABLED| && REVIEW_DISABLED[j] == ':'
    ensures j == 6 || j == 22
  {
  }

  lemma MatchedChars(t: string, marker: string, i: nat)
    requires MatchesAt(t, marker, i)
    ensures i + |marker| <= |t| && forall k :: 0 <= k < |marker| ==> UpperChar(t[i + k]) == marker[k]
  {
  }

  lemma DisabledLacks(marker: string)
    requires |marker| > 8 && marker[0] == 'S' && marker[6] == ':' && (marker[7] != ' ' || marker[8] != 'C')
    ensures !HasMarker(REVIEW_DISABLED, marker)
  {
    var t := REVIEW_DISABLED;
    if i: nat :| i <= |t| && MatchesAt(t, marker, i) {
      hide HasMarker, MatchesAt;
      assert UpperChar(t[i + 6]) == marker[6] && UpperChar(t[i]) == marker[0] && UpperChar(t[i + 7]) == marker[7]
        && UpperChar(t[i + 8]) == marker[8] by { MatchedChars(t, marker, i); }
      DisabledColons(i + 6);
      assert i == 0 || i == 16;
    }
  }

  lemma StatusLines(v: Verdict, line: string, tight: string)
    requires line == "STATUS: " + Word(v) && tight == "STATUS:" + Word(v)
    ensures forall text :: HasStatus(text, v) <==> HasMarker(text, line) || HasMarker(text, tight)
  {
  }

  /** Without reviewers the verdict is CLEAN, whatever the heuristics. */
  lemma DisabledReviewIsClean(h: Heuristics)
    ensures CombinedStatus(h, REVIEW_DISABLED) == Clean
  {
    hide HasMarker;
    DisabledLacks("STATUS: REJECT");
    DisabledLacks("STATUS:REJECT");
    DisabledLacks("STATUS: NEEDS_PATCH");
    DisabledLacks("STATUS:NEEDS_PATCH");
    StatusLines(Reject, "STATUS: REJECT", "STATUS:REJECT");
    StatusLines(NeedsPatch, "STATUS: NEEDS_PATCH", "STATUS:NEEDS_PATCH");
    PrefixMarked("STATUS: CLEAN", "\nFINDINGS:\n- review disabled", Clean);
  }

  lemma {:induction false} FirstChunk(p: Panel, r: Replies, dryRun: bool, status: Verdict, n: nat)
    requires 0 < n <= |p.reviewers|
    ensures var c := PlainChunks(p, r, dryRun, status, n); |c| > 0 && |c[0]| > 0 && c[0][0] == '='
  {
    if n > 1 {
      FirstChunk(p, r, dryRun, status, n - 1);
    }
  }

  /** The loop's three sentinel strings can never be mistaken for a transcript. */
  lemma SentinelsUnambiguous(p: Panel, r: Replies, dryRun: bool, status: Verdict)
    ensures ReviewText(p, r, dryRun, status) !in {"__rejected__", "__blocked__", "__budget_exhausted__"}
  {
    if p.reviewers != [] {
      FirstChunk(p, r, dryRun, status, |p.reviewers|);
      var chunks := Chunks(p, r, dryRun, status);
      assert chunks[0] == PlainChunks(p, r, dryRun, status, |p.reviewers|)[0];
      assert Join(chunks)[0] == '=';
    }
  }
}
