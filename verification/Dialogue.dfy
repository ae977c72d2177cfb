/**
 What a run of the agent says to its client and stores in its session, in the words of the model's
 answers: nothing here uses the functions that the agent builds its events and messages with.
 */
module Dialogue {
  import opened Text
  import opened Sessions
  import opened Agent
  import C = Conversation

  // ---------- What is said ----------

  /** Answer texts and thoughts, without results, errors and the end. */
  function Spoken(trace: seq<Chunk>): seq<Chunk> {
    if trace == [] then []
    else
      var last := trace[|trace| - 1];
      Spoken(trace[..|trace| - 1]) + if last.Content? || last.Reasoning? then [last] else []
  }

  /** What the first `n` model calls streamed. */
  function Pieces(s: C.Setting, n: nat): seq<Streamed> {
    if n == 0 then [] else Pieces(s, n - 1) + C.Answer(s, n - 1).streamed
  }

  /** Each text is an event of its content, each thought one of its reasoning. */
  predicate Says(events: seq<Chunk>, pieces: seq<Streamed>) {
    && |events| == |pieces|
    && (forall i | 0 <= i < |pieces| && pieces[i].Text? :: events[i] == Content(pieces[i].data))
    && (forall i | 0 <= i < |pieces| && pieces[i].Thought? :: events[i] == Reasoning(pieces[i].data))
  }

  lemma {:induction false} SpokenAppend(a: seq<Chunk>, b: seq<Chunk>)
    ensures Spoken(a + b) == Spoken(a) + Spoken(b)
    decreases |b|
  {
    if b == [] {
      assert a + b == a;
    } else {
      assert (a + b)[..|a + b| - 1] == a + b[..|b| - 1];
      SpokenAppend(a, b[..|b| - 1]);
    }
  }

  lemma {:induction false} StreamedIsSpoken(streamed: seq<Streamed>)
    ensures Says(Spoken(AsChunks(streamed)), streamed)
    decreases |streamed|
  {
    if streamed != [] {
      var init := streamed[..|streamed| - 1];
      StreamedIsSpoken(init);
      assert AsChunks(streamed)[..|streamed| - 1] == AsChunks(init);
    }
  }

  lemma {:induction false} SilentTrace(trace: seq<Chunk>)
    requires forall c | c in trace :: !c.Content? && !c.Reasoning?
    ensures Spoken(trace) == []
  {
    if trace != [] {
      SilentTrace(trace[..|trace| - 1]);
    }
  }

  /** A trace that goes on with what a call streamed and something silent. */
  lemma MoreIsSaid(before: seq<Chunk>, pieces: seq<Streamed>, streamed: seq<Streamed>, silent: seq<Chunk>)
    requires Says(Spoken(before), pieces) && forall c | c in silent :: !c.Content? && !c.Reasoning?
    ensures Says(Spoken(before + AsChunks(streamed) + silent), pieces + streamed)
  {
    hide AsChunks;
    SpokenAppend(before + AsChunks(streamed), silent);
    SpokenAppend(before, AsChunks(streamed));
    SilentTrace(silent);
    StreamedIsSpoken(streamed);
  }

  lemma {:induction false} RoundsAreSaid(s: C.Setting, n: nat)
    ensures Says(Spoken(C.Shown(s, n)), Pieces(s, n))
    decreases n
  {
    hide Says, AsChunks, Spoken, C.Answer;
    if n > 0 {
      RoundsAreSaid(s, n - 1);
      MoreIsSaid(C.Shown(s, n - 1), Pieces(s, n - 1), C.Answer(s, n - 1).streamed, C.Outputs(C.Results(s, n - 1)));
    } else {
      NothingIsSaid(s);
    }
  }

  lemma NothingIsSaid(s: C.Setting)
    ensures Says(Spoken(C.Shown(s, 0)), Pieces(s, 0))
  {
  }

  /** What a trace may end with behind the rounds. */
  lemma EndIsSaid(s: C.Setting, n: nat, silent: seq<Chunk>)
    requires forall c | c in silent :: !c.Content? && !c.Reasoning?
    ensures Says(Spoken(C.Shown(s, n) + silent), Pieces(s, n))
    ensures Says(Spoken(C.Shown(s, n) + AsChunks(C.Answer(s, n).streamed) + silent), Pieces(s, n + 1))
  {
    hide Says, AsChunks, Spoken, C.Answer, C.Shown;
    RoundsAreSaid(s, n);
    MoreIsSaid(C.Shown(s, n), Pieces(s, n), C.Answer(s, n).streamed, silent);
    SpokenAppend(C.Shown(s, n), silent);
    SilentTrace(silent);
    assert Spoken(C.Shown(s, n)) + [] == Spoken(C.Shown(s, n));
  }

  lemma EndSays(s: C.Setting, end: Run, n: nat)
    requires C.Ends(s, end, n)
    ensures Says(Spoken(end.trace), Pieces(s, |end.prompts|))
  {
    hide Says, Spoken, C.Answer, C.Shown, C.Stored, Pieces, AsChunks;
    var done: seq<Chunk> := [Done("[DONE]")];
    EndIsSaid(s, n, done);
    EndIsSaid(s, n, []);
    EndIsSaid(s, n + 1, []);
    assert C.Shown(s, n) + [] == C.Shown(s, n) && C.Shown(s, n + 1) + [] == C.Shown(s, n + 1);
    assert C.Shown(s, n) + AsChunks(C.Answer(s, n).streamed) + [] == C.Shown(s, n) + AsChunks(C.Answer(s, n).streamed);
    if end.status.ERROR? && |end.prompts| == n {
      EndIsSaid(s, n, [Error("Max iterations reached"), Done("[DONE]")]);
    } else if end.status.ERROR? {
      var error :| C.FailsWith(C.Answer(s, n), error)
        && end.trace == C.Shown(s, n) + AsChunks(C.Answer(s, n).streamed) + [Error(error), Done("[DONE]")];
      EndIsSaid(s, n, [Error(error), Done("[DONE]")]);
    }
  }

  /**
   However a run ends, its client is told what the model streamed in all its calls, piece by piece and in
   order: texts as content, thoughts as reasoning.
   */
  lemma WhatIsStreamedIsSaid(s: C.Setting)
    ensures var end := RunAgent(s.world, s.max, s.message, s.history);
            Says(Spoken(end.trace), Pieces(s, |end.prompts|))
  {
    hide C.Ends, Says, Spoken, RunAgent;
    C.RunIsAConversation(s);
    var end := RunAgent(s.world, s.max, s.message, s.history);
    var n :| 0 <= n <= MAX_ITERATIONS && C.Ends(s, end, n);
    EndSays(s, end, n);
  }

  // ---------- What is stored ----------

  /** What a round that asked for tools stores: the question, if it is the first, the call, and a reply to each. */
  function RoundRecord(s: C.Setting, k: nat): seq<Message>
    requires C.AsksForTools(C.Answer(s, k))
  {
    var result := C.Answer(s, k).result;
    Question(s, k) + [Message(Assistant, "", result.calls, "", result.reasoning)]
    + seq(|result.calls|, i requires 0 <= i < |result.calls| =>
        Message(Tool, s.world.tool(C.Executed(s, k) + i, result.calls[i]), [], result.calls[i].id, ""))
  }

  function Question(s: C.Setting, k: nat): seq<Message> {
    if k == 0 && s.message != "" then [Message(User, s.message, [], "", "")] else []
  }

  /** What the first `n` rounds store. */
  function Record(s: C.Setting, n: nat): seq<Message>
    requires forall j | 0 <= j < n :: C.AsksForTools(C.Answer(s, j))
  {
    if n == 0 then [] else Record(s, n - 1) + RoundRecord(s, n - 1)
  }

  /** What the final answer stores. */
  function LastRecord(s: C.Setting, n: nat): seq<Message>
    requires C.IsFinalAnswer(C.Answer(s, n))
  {
    var content := C.Answer(s, n).result.content;
    Question(s, n) + if content == "" then [] else [Message(Assistant, content, [], "", "")]
  }

  lemma RoundIsRecorded(s: C.Setting, k: nat)
    requires C.AsksForTools(C.Answer(s, k))
    ensures C.Stored(s, k + 1) == C.Stored(s, k) + RoundRecord(s, k)
  {
    hide C.Answer;
    C.RoundIs(s, k);
    var result, from := C.Answer(s, k).result, C.Executed(s, k);
    assert C.UserPart(s, k) == Question(s, k);
    assert C.Group(s.world, from, result)[0] == Message(Assistant, "", result.calls, "", result.reasoning);
    assert C.UserPart(s, k) + C.Group(s.world, from, result) == RoundRecord(s, k);
    Associative(C.Stored(s, k), C.UserPart(s, k), C.Group(s.world, from, result));
  }

  lemma {:induction false} RoundsAreRecorded(s: C.Setting, n: nat)
    requires forall j | 0 <= j < n :: C.AsksForTools(C.Answer(s, j))
    ensures C.Stored(s, n) == Record(s, n)
    decreases n
  {
    hide C.Stored, RoundRecord, C.Answer, C.AsksForTools;
    if n > 0 {
      RoundsAreRecorded(s, n - 1);
      RoundIsRecorded(s, n - 1);
    } else {
      NothingIsRecorded(s);
    }
  }

  lemma NothingIsRecorded(s: C.Setting)
    ensures C.Stored(s, 0) == []
  {
  }

  /** The run stored the record of its rounds, and of its final answer if it got that far. */
  ghost predicate IsRecorded(s: C.Setting, stored: seq<Message>) {
    exists n: nat :: n <= 10 && IsRecordOf(s, stored, n)
  }

  predicate IsRecordOf(s: C.Setting, stored: seq<Message>, n: nat) {
    && (forall j | 0 <= j < n :: C.AsksForTools(C.Answer(s, j)))
    && (stored == Record(s, n) || (C.IsFinalAnswer(C.Answer(s, n)) && stored == Record(s, n) + LastRecord(s, n)))
  }

  lemma AppendedIs(s: C.Setting, end: Run, n: nat)
    requires C.Ends(s, end, n)
    ensures || end.appended == C.Stored(s, n)
            || (C.IsFinalAnswer(C.Answer(s, n))
                && end.appended == C.Stored(s, n) + C.UserPart(s, n) + C.FinalPart(C.Answer(s, n).result.content))
            || (C.AsksForTools(C.Answer(s, n)) && |end.prompts| == n + 1 && end.appended == C.Stored(s, n + 1))
    ensures forall j | 0 <= j < n :: C.AsksForTools(C.Answer(s, j))
  {
    hide C.Stored, C.Shown, C.Answer, AsChunks, C.IsFinalAnswer, C.AsksForTools, C.UserPart, C.FinalPart;
  }

  lemma FinalIsRecorded(s: C.Setting, n: nat)
    requires C.IsFinalAnswer(C.Answer(s, n)) && forall j | 0 <= j < n :: C.AsksForTools(C.Answer(s, j))
    ensures C.Stored(s, n) + C.UserPart(s, n) + C.FinalPart(C.Answer(s, n).result.content)
            == Record(s, n) + LastRecord(s, n)
  {
    RoundsAreRecorded(s, n);
    hide C.Stored, C.Answer, Record, C.AsksForTools;
    var content := C.Answer(s, n).result.content;
    assert C.UserPart(s, n) + C.FinalPart(content) == LastRecord(s, n);
    Associative(C.Stored(s, n), C.UserPart(s, n), C.FinalPart(content));
  }

  lemma EndIsRecorded(s: C.Setting, end: Run, n: nat)
    requires C.Ends(s, end, n) && n <= 10 && |end.prompts| <= 10
    ensures IsRecorded(s, end.appended)
  {
    hide C.Ends, C.Stored, C.Answer, C.UserPart, C.FinalPart, C.AsksForTools, Record, LastRecord;
    AppendedIs(s, end, n);
    if end.appended == C.Stored(s, n) {
      RoundsAreRecorded(s, n);
      assert IsRecordOf(s, end.appended, n);
    } else if C.IsFinalAnswer(C.Answer(s, n))
      && end.appended == C.Stored(s, n) + C.UserPart(s, n) + C.FinalPart(C.Answer(s, n).result.content) {
      FinalIsRecorded(s, n);
      assert IsRecordOf(s, end.appended, n);
    } else {
      RoundsAreRecorded(s, n + 1);
      assert IsRecordOf(s, end.appended, n + 1);
    }
  }

  /**
   However a run ends, what it stored is this record, and each conversation it sent is the history it
   found with the record so far, behind which the first one carries the question.
   */
  lemma RunsKeepRecords(s: C.Setting)
    ensures var end := RunAgent(s.world, s.max, s.message, s.history);
            && IsRecorded(s, end.appended) && |end.prompts| <= 10
            && (end.prompts != [] ==> end.prompts[0] == s.history + Question(s, 0))
            && forall k | 0 < k < |end.prompts| ::
                 (forall j | 0 <= j < k :: C.AsksForTools(C.Answer(s, j)))
                 && end.prompts[k] == AppendAll(s.history, Record(s, k), s.max)
  {
    hide C.Ends, RunAgent, C.Stored, C.Answer, IsRecorded, Record, C.AsksForTools;
    C.RunIsAConversation(s);
    TraceGrammar(s.world, s.max, s.message, s.history);
    var end := RunAgent(s.world, s.max, s.message, s.history);
    var n :| 0 <= n <= MAX_ITERATIONS && C.Ends(s, end, n);
    EndIsRecorded(s, end, n);
    EndPrompts(s, end, n);
  }

  lemma EndPrompts(s: C.Setting, end: Run, n: nat)
    requires C.Ends(s, end, n)
    ensures end.prompts != [] ==> end.prompts[0] == s.history + Question(s, 0)
    ensures forall k | 0 < k < |end.prompts| ::
              (forall j | 0 <= j < k :: C.AsksForTools(C.Answer(s, j)))
              && end.prompts[k] == AppendAll(s.history, Record(s, k), s.max)
  {
    hide C.Stored, C.Shown, C.Answer, RoundRecord, C.AsksForTools;
    assert C.Unfolds(s, end.prompts, n);
    if end.prompts != [] {
      RoundsAreRecorded(s, 0);
      assert s.history + [] == s.history;
    }
    forall k | 0 < k < |end.prompts|
      ensures (forall j | 0 <= j < k :: C.AsksForTools(C.Answer(s, j)))
      ensures end.prompts[k] == AppendAll(s.history, Record(s, k), s.max)
    {
      RoundsAreRecorded(s, k);
    }
  }

  // ---------- How long a run goes on ----------

  /** Nobody cancels the run, neither its client nor within a model call. */
  ghost predicate Uncanceled(s: C.Setting) {
    && (forall k: nat :: !s.world.canceled(k))
    && (forall k: nat :: C.Answer(s, k).Returned? ==> !C.Answer(s, k).result.canceled)
  }

  /** How an uncancelled run of `m` rounds ends. */
  lemma UncanceledEnd(s: C.Setting, end: Run, m: nat)
    requires Uncanceled(s) && C.Ends(s, end, m)
    ensures || (end.status.DONE? && |end.prompts| == m + 1 && C.IsFinalAnswer(C.Answer(s, m)))
            || (end.status.ERROR? && |end.prompts| == m == 10)
            || (&& end.status.ERROR? && |end.prompts| == m + 1
                && !C.AsksForTools(C.Answer(s, m)) && !C.IsFinalAnswer(C.Answer(s, m)))
  {
    hide C.Stored, C.Shown, C.Answer, C.Unfolds;
    assert end.looks > 0 ==> !s.world.canceled(end.looks - 1);
    assert C.Unfolds(s, end.prompts, m) && (C.Answer(s, m).Returned? ==> !C.Answer(s, m).result.canceled);
    PromptCount(s, end.prompts, m);
  }

  lemma PromptCount(s: C.Setting, prompts: seq<History>, m: nat)
    requires C.Unfolds(s, prompts, m)
    ensures m <= |prompts| <= m + 1 && forall j | 0 <= j < m :: C.AsksForTools(C.Answer(s, j))
  {
  }

  /**
   An uncancelled run goes on for as many rounds as the model asks for tools, up to ten: it ends done
   with the first answer that asks for none, and in error when a call fails or the tenth asks again.
   */
  lemma RunsGoOn(s: C.Setting, n: nat)
    requires Uncanceled(s) && n <= 10 && forall j | 0 <= j < n :: C.AsksForTools(C.Answer(s, j))
    ensures var end := RunAgent(s.world, s.max, s.message, s.history);
            && (n < 10 && C.IsFinalAnswer(C.Answer(s, n)) ==> end.status.DONE? && |end.prompts| == n + 1)
            && (n == 10 ==> end.status.ERROR? && |end.prompts| == 10)
            && (n < 10 && !C.AsksForTools(C.Answer(s, n)) && !C.IsFinalAnswer(C.Answer(s, n)) ==>
                  end.status.ERROR? && |end.prompts| == n + 1)
  {
    hide RunAgent, C.Answer, C.Ends, C.Unfolds, Uncanceled;
    C.RunIsAConversation(s);
    TraceGrammar(s.world, s.max, s.message, s.history);
    var end := RunAgent(s.world, s.max, s.message, s.history);
    var m :| 0 <= m <= MAX_ITERATIONS && C.Ends(s, end, m);
    UncanceledEnd(s, end, m);
    C.EndUnfolds(s, end, m);
    PromptCount(s, end.prompts, m);
    assert m < n ==> C.AsksForTools(C.Answer(s, m));
    assert n < m ==> C.AsksForTools(C.Answer(s, n));
  }

  // ---------- Why a run failed ----------

  /** The words for a model call that failed, or for a tenth one that still asked for tools. */
  function Complaint(o: Outcome): string {
    match o
    case Threw(_, Some(what)) => "Agent exception: " + what
    case Threw(_, None) => "Agent unknown exception"
    case Returned(_, result) =>
      if result.success then "Max iterations reached"
      else if result.error == "" then "LLM call failed"
      else result.error
  }

  lemma ErrorsEnd(s: C.Setting, end: Run, n: nat)
    requires C.Ends(s, end, n) && end.status.ERROR?
    ensures end.prompts != []
    ensures |end.trace| > 1 && end.trace[|end.trace| - 2..] ==
                               [Error(Complaint(C.Answer(s, |end.prompts| - 1))), Done("[DONE]")]
  {
    hide C.Stored, C.Shown, C.Answer, AsChunks;
    C.EndUnfolds(s, end, n);
    PromptCount(s, end.prompts, n);
    if |end.prompts| == n {
      assert C.AsksForTools(C.Answer(s, n - 1));
    } else {
      var error :| C.FailsWith(C.Answer(s, n), error)
        && end.trace == C.Shown(s, n) + AsChunks(C.Answer(s, n).streamed) + [Error(error), Done("[DONE]")];
    }
  }

  /** A run that ends in error tells its client why, and then that it is over. */
  lemma ErrorsSayWhy(s: C.Setting)
    ensures var end := RunAgent(s.world, s.max, s.message, s.history);
            end.status.ERROR? ==>
              && end.prompts != [] && |end.trace| > 1
              && end.trace[|end.trace| - 2..] ==
                 [Error(Complaint(C.Answer(s, |end.prompts| - 1))), Done("[DONE]")]
  {
    hide C.Ends, RunAgent, C.Answer, Complaint;
    C.RunIsAConversation(s);
    var end := RunAgent(s.world, s.max, s.message, s.history);
    var n :| 0 <= n <= MAX_ITERATIONS && C.Ends(s, end, n);
    if end.status.ERROR? {
      ErrorsEnd(s, end, n);
    }
  }
}
