/**
 The runs of the agent as acts on a session: what `Interleaving` says of legal acts is said of agents.
 And what a cleanup does to a single run.
 */
module RunScripts {
  import opened Text
  import opened Sessions
  import opened Agent
  import opened Interleaving
  import C = Conversation

  /** The conversations sent to the model in the course of these acts. */
  function Prompts(h: History, acts: seq<Act>, max: int): seq<History> {
    if acts == [] then []
    else
      var init, last := acts[..|acts| - 1], acts[|acts| - 1];
      Prompts(h, init, max) + if last.Ask? then [Prompt(HistoryAt(h, init, max), last.message)] else []
  }

  function Puts(run: nat, ms: seq<Message>): (r: seq<Act>)
    ensures |r| == |ms|
  {
    seq(|ms|, i requires 0 <= i < |ms| => Put(run, ms[i]))
  }

  /** A round's call and the replies to it. */
  function Exchange(s: C.Setting, k: nat): seq<Message> {
    [CallMessage(C.Calls(s, k), C.Thinking(s, k))] + Replies(C.Calls(s, k), C.Results(s, k))
  }

  /** What a run does in its first `k` rounds. */
  function Rounds(s: C.Setting, run: nat, k: nat): seq<Act> {
    if k == 0 then []
    else
      Rounds(s, run, k - 1) + [Ask(run, C.Current(s, k - 1))]
      + Puts(run, C.UserPart(s, k - 1)) + Puts(run, Exchange(s, k - 1))
  }

  /** These are the acts of this run alone. */
  predicate IsOf(run: nat, acts: seq<Act>) {
    forall a | a in acts :: !a.Cleanup? && a.run == run
  }

  /** Legal acts of one run, after which it owes nothing. */
  ghost predicate Settled(run: nat, acts: seq<Act>) {
    Legal(acts) && IsOf(run, acts) && Owed(acts, run) == []
  }

  lemma PutsSplit(run: nat, a: seq<Message>, b: seq<Message>)
    ensures Puts(run, a + b) == Puts(run, a) + Puts(run, b)
  {
  }

  lemma {:induction false} StoredPuts(acts: seq<Act>, run: nat, ms: seq<Message>)
    ensures StoredBy(acts + Puts(run, ms)) == StoredBy(acts) + ms
    decreases |ms|
  {
    if ms == [] {
      assert acts + Puts(run, ms) == acts && StoredBy(acts) + ms == StoredBy(acts);
    } else {
      var init, last := ms[..|ms| - 1], ms[|ms| - 1];
      assert acts + Puts(run, ms) == acts + Puts(run, init) + [Put(run, last)];
      StoredOne(acts + Puts(run, init), Put(run, last));
      StoredPuts(acts, run, init);
      assert ms == init + [last];
    }
  }

  /** Storing asks nothing. */
  lemma {:induction false} PromptsPuts(h: History, acts: seq<Act>, run: nat, ms: seq<Message>, max: int)
    ensures Prompts(h, acts + Puts(run, ms), max) == Prompts(h, acts, max)
    decreases |ms|
  {
    if ms == [] {
      assert acts + Puts(run, ms) == acts;
    } else {
      var all := acts + Puts(run, ms);
      assert all[..|all| - 1] == acts + Puts(run, ms[..|ms| - 1]);
      PromptsPuts(h, acts, run, ms[..|ms| - 1], max);
    }
  }

  lemma {:induction false} HistoryIsAppended(h: History, acts: seq<Act>, max: int)
    requires NoCleanup(acts)
    ensures HistoryAt(h, acts, max) == AppendAll(h, StoredBy(acts), max)
    decreases |acts|
  {
    if acts != [] {
      var init, last := acts[..|acts| - 1], acts[|acts| - 1];
      HistoryIsAppended(h, init, max);
      if last.Put? {
        assert StoredBy(acts)[..|StoredBy(acts)| - 1] == StoredBy(init);
      } else {
        assert StoredBy(acts) == StoredBy(init);
      }
    }
  }

  lemma PromptsAsk(h: History, acts: seq<Act>, ask: Act, max: int)
    requires ask.Ask?
    ensures Prompts(h, acts + [ask], max) == Prompts(h, acts, max) + [Prompt(HistoryAt(h, acts, max), ask.message)]
  {
    assert (acts + [ask])[..|acts|] == acts;
  }

  // ---------- The acts of a run are legal ----------

  lemma AskSettles(run: nat, acts: seq<Act>, message: string)
    requires Settled(run, acts)
    ensures Settled(run, acts + [Ask(run, message)])
  {
    LegalOne(acts, Ask(run, message));
    OwedOne(acts, Ask(run, message), run);
  }

  /** At most one message that is no call and no reply. */
  lemma PlainSettles(run: nat, acts: seq<Act>, ms: seq<Message>)
    requires Settled(run, acts) && |ms| <= 1
    requires forall m | m in ms :: (m.role.User? || m.role.Assistant?) && !IsCall(m)
    ensures Settled(run, acts + Puts(run, ms))
  {
    if ms == [] {
      assert acts + Puts(run, ms) == acts;
    } else {
      assert ms[0] in ms;
      assert Puts(run, ms) == [Put(run, ms[0])];
      LegalOne(acts, Put(run, ms[0]));
      OwedOne(acts, Put(run, ms[0]), run);
    }
  }

  lemma {:induction false} RepliesSettle(run: nat, acts: seq<Act>, calls: seq<ToolCall>, results: seq<string>)
    requires |results| == |calls|
    requires Legal(acts) && IsOf(run, acts) && Owed(acts, run) == Ids(calls)
    ensures Settled(run, acts + Puts(run, Replies(calls, results)))
    decreases |calls|
  {
    hide Legal;
    var replies := Replies(calls, results);
    if calls == [] {
      assert acts + Puts(run, replies) == acts;
    } else {
      var act := Put(run, replies[0]);
      LegalOne(acts, act);
      OwedOne(acts, act, run);
      assert Ids(calls)[1..] == Ids(calls[1..]);
      RepliesSettle(run, acts + [act], calls[1..], results[1..]);
      assert Puts(run, replies) == [act] + Puts(run, Replies(calls[1..], results[1..]));
      Associative(acts, [act], Puts(run, Replies(calls[1..], results[1..])));
    }
  }

  lemma GroupSettles(run: nat, acts: seq<Act>, calls: seq<ToolCall>, reasoning: string, results: seq<string>)
    requires Settled(run, acts) && calls != [] && |results| == |calls|
    ensures Settled(run, acts + Puts(run, [CallMessage(calls, reasoning)] + Replies(calls, results)))
  {
    var act := Put(run, CallMessage(calls, reasoning));
    LegalOne(acts, act);
    OwedOne(acts, act, run);
    RepliesSettle(run, acts + [act], calls, results);
    PutsSplit(run, [CallMessage(calls, reasoning)], Replies(calls, results));
    assert Puts(run, [CallMessage(calls, reasoning)]) == [act];
    Associative(acts, [act], Puts(run, Replies(calls, results)));
  }

  lemma RoundStores(s: C.Setting, k: nat)
    requires C.AsksForTools(C.Answer(s, k))
    ensures C.Calls(s, k) != []
    ensures C.Stored(s, k + 1) == C.Stored(s, k) + C.UserPart(s, k) + Exchange(s, k)
    ensures forall m | m in C.UserPart(s, k) :: m.role.User? && !IsCall(m)
    ensures |C.UserPart(s, k)| <= 1
  {
  }

  /** One more round behind legal acts. */
  lemma RoundSettles(s: C.Setting, run: nat, k: nat, before: seq<Act>)
    requires Settled(run, before) && C.AsksForTools(C.Answer(s, k)) && StoredBy(before) == C.Stored(s, k)
    ensures var after := before + [Ask(run, C.Current(s, k))] + Puts(run, C.UserPart(s, k)) + Puts(run, Exchange(s, k));
            Settled(run, after) && StoredBy(after) == C.Stored(s, k + 1)
  {
    hide Settled, StoredBy, C.Stored, C.Answer, C.AsksForTools, C.Calls, C.Results, C.UserPart;
    var asked := before + [Ask(run, C.Current(s, k))];
    var told := asked + Puts(run, C.UserPart(s, k));
    RoundStores(s, k);
    AskSettles(run, before, C.Current(s, k));
    PlainSettles(run, asked, C.UserPart(s, k));
    GroupSettles(run, told, C.Calls(s, k), C.Thinking(s, k), C.Results(s, k));
    StoredOne(before, Ask(run, C.Current(s, k)));
    StoredPuts(asked, run, C.UserPart(s, k));
    StoredPuts(told, run, Exchange(s, k));
    assert C.Stored(s, k) + [] == C.Stored(s, k);
  }

  /** The first rounds of a run, if all of them asked for tools. */
  lemma {:induction false} RoundsSettle(s: C.Setting, run: nat, k: nat)
    requires forall j | 0 <= j < k :: C.AsksForTools(C.Answer(s, j))
    ensures Settled(run, Rounds(s, run, k)) && StoredBy(Rounds(s, run, k)) == C.Stored(s, k)
    decreases k
  {
    hide Settled, StoredBy, C.Stored, C.Answer, C.AsksForTools, C.Current, C.UserPart, Exchange;
    if k > 0 {
      RoundsSettle(s, run, k - 1);
      assert C.AsksForTools(C.Answer(s, k - 1));
      RoundSettles(s, run, k - 1, Rounds(s, run, k - 1));
    } else {
      NoRounds(s, run);
    }
  }

  lemma NoRounds(s: C.Setting, run: nat)
    ensures Settled(run, []) && StoredBy([]) == C.Stored(s, 0)
  {
  }

  lemma RoundAsks(s: C.Setting, run: nat, k: nat, before: seq<Act>)
    requires HistoryAt(s.history, before, s.max) == C.Before(s, k)
    ensures var after := before + [Ask(run, C.Current(s, k))] + Puts(run, C.UserPart(s, k)) + Puts(run, Exchange(s, k));
            Prompts(s.history, after, s.max)
            == Prompts(s.history, before, s.max) + [Prompt(C.Before(s, k), C.Current(s, k))]
  {
    hide C.Before, C.Current, C.UserPart, Prompts, HistoryAt, Exchange;
    var ask := Ask(run, C.Current(s, k));
    PromptsAsk(s.history, before, ask, s.max);
    PromptsPuts(s.history, before + [ask], run, C.UserPart(s, k), s.max);
    PromptsPuts(s.history, before + [ask] + Puts(run, C.UserPart(s, k)), run, Exchange(s, k), s.max);
  }

  lemma {:induction false} RoundsAsk(s: C.Setting, run: nat, k: nat)
    requires forall j | 0 <= j < k :: C.AsksForTools(C.Answer(s, j))
    ensures var prompts := Prompts(s.history, Rounds(s, run, k), s.max);
            |prompts| == k && forall j | 0 <= j < k :: prompts[j] == Prompt(C.Before(s, j), C.Current(s, j))
    decreases k
  {
    hide C.Before, C.Current, C.UserPart, Exchange, C.Answer, HistoryAt;
    if k > 0 {
      RoundsAsk(s, run, k - 1);
      RoundsHistory(s, run, k - 1);
      RoundAsks(s, run, k - 1, Rounds(s, run, k - 1));
    }
  }

  lemma RoundsHistory(s: C.Setting, run: nat, k: nat)
    requires forall j | 0 <= j < k :: C.AsksForTools(C.Answer(s, j))
    ensures HistoryAt(s.history, Rounds(s, run, k), s.max) == C.Before(s, k)
  {
    RoundsSettle(s, run, k);
    HistoryIsAppended(s.history, Rounds(s, run, k), s.max);
  }

  // ---------- Whole runs ----------

  /** Alone on its session, the acts give exactly the conversations, the messages and the history of the run. */
  ghost predicate Performs(acts: seq<Act>, run: nat, h: History, max: int, end: Run) {
    && Settled(run, acts)
    && Prompts(h, acts, max) == end.prompts
    && StoredBy(acts) == end.appended
    && HistoryAt(h, acts, max) == end.history
  }

  lemma PerformsIf(acts: seq<Act>, run: nat, s: C.Setting, end: Run)
    requires Settled(run, acts) && StoredBy(acts) == end.appended && Prompts(s.history, acts, s.max) == end.prompts
    requires end == RunAgent(s.world, s.max, s.message, s.history)
    ensures Performs(acts, run, s.history, s.max, end)
  {
    HistoryIsAppended(s.history, acts, s.max);
    StoredMatchesEmitted(s.world, s.max, s.message, s.history);
  }

  /** The run stopped between two rounds. */
  lemma StoppedBetween(s: C.Setting, run: nat, n: nat, end: Run)
    requires forall j | 0 <= j < n :: C.AsksForTools(C.Answer(s, j))
    requires |end.prompts| == n && end.appended == C.Stored(s, n)
    requires forall j | 0 <= j < n :: end.prompts[j] == Prompt(C.Before(s, j), C.Current(s, j))
    requires end == RunAgent(s.world, s.max, s.message, s.history)
    ensures Performs(Rounds(s, run, n), run, s.history, s.max, end)
  {
    hide Settled, Rounds, C.Stored;
    RoundsSettle(s, run, n);
    RoundsAsk(s, run, n);
    PerformsIf(Rounds(s, run, n), run, s, end);
  }

  /** The run asked once more, and stored no group after that. */
  lemma StoppedAfterAsk(s: C.Setting, run: nat, n: nat, rest: seq<Message>, end: Run)
    requires forall j | 0 <= j < n :: C.AsksForTools(C.Answer(s, j))
    requires |end.prompts| == n + 1 && end.appended == C.Stored(s, n) + rest
    requires forall j | 0 <= j <= n :: end.prompts[j] == Prompt(C.Before(s, j), C.Current(s, j))
    requires end == RunAgent(s.world, s.max, s.message, s.history)
    requires var asked := Rounds(s, run, n) + [Ask(run, C.Current(s, n))];
             Settled(run, asked) ==> Settled(run, asked + Puts(run, rest))
    ensures Performs(Rounds(s, run, n) + [Ask(run, C.Current(s, n))] + Puts(run, rest), run, s.history, s.max, end)
  {
    hide Settled, Rounds, C.Stored, C.Before, C.Current, C.Answer, Prompts, StoredBy, HistoryAt, RunAgent, Performs;
    var before, ask := Rounds(s, run, n), Ask(run, C.Current(s, n));
    RoundsSettle(s, run, n);
    RoundsAsk(s, run, n);
    RoundsHistory(s, run, n);
    AskSettles(run, before, C.Current(s, n));
    PromptsAsk(s.history, before, ask, s.max);
    PromptsPuts(s.history, before + [ask], run, rest, s.max);
    StoredOne(before, ask);
    StoredPuts(before + [ask], run, rest);
    assert C.Stored(s, n) + [] == C.Stored(s, n);
    PerformsIf(before + [ask] + Puts(run, rest), run, s, end);
  }

  /** What a run stores after its final answer. */
  function Closing(s: C.Setting, n: nat): seq<Message>
    requires C.Answer(s, n).Returned?
  {
    C.UserPart(s, n) + C.FinalPart(C.Answer(s, n).result.content)
  }

  lemma ClosingSettles(s: C.Setting, run: nat, n: nat, acts: seq<Act>)
    requires C.Answer(s, n).Returned? && Settled(run, acts)
    ensures Settled(run, acts + Puts(run, Closing(s, n)))
  {
    hide Settled, C.Answer;
    var user, final := C.UserPart(s, n), C.FinalPart(C.Answer(s, n).result.content);
    PlainSettles(run, acts, user);
    PlainSettles(run, acts + Puts(run, user), final);
    PutsSplit(run, user, final);
    Associative(acts, Puts(run, user), Puts(run, final));
  }

  lemma NothingSettles(run: nat, acts: seq<Act>)
    ensures Settled(run, acts) ==> Settled(run, acts + Puts(run, []))
  {
    assert acts + Puts(run, []) == acts;
  }

  /** What a run did that ended like this after `n` rounds. */
  function Script(s: C.Setting, run: nat, n: nat, end: Run): seq<Act> {
    if |end.prompts| == n then Rounds(s, run, n)
    else
      var asked := Rounds(s, run, n) + [Ask(run, C.Current(s, n))];
      if end.appended == C.Stored(s, n) then asked
      else if C.IsFinalAnswer(C.Answer(s, n)) then asked + Puts(run, Closing(s, n))
      else Rounds(s, run, n + 1)
  }

  /** What an end after `n` rounds says of the conversations sent and the messages stored. */
  predicate Fits(s: C.Setting, end: Run, n: nat) {
    && C.Unfolds(s, end.prompts, n)
    && (|end.prompts| == n ==> end.appended == C.Stored(s, n))
    && (|end.prompts| == n + 1 && end.appended != C.Stored(s, n) ==>
          if C.IsFinalAnswer(C.Answer(s, n)) then end.appended == C.Stored(s, n) + Closing(s, n)
          else C.AsksForTools(C.Answer(s, n)) && end.appended == C.Stored(s, n + 1))
  }

  lemma EndsFit(s: C.Setting, end: Run, n: nat)
    requires C.Ends(s, end, n)
    ensures Fits(s, end, n)
  {
    hide C.Stored, C.Shown;
    if C.IsFinalAnswer(C.Answer(s, n)) {
      Associative(C.Stored(s, n), C.UserPart(s, n), C.FinalPart(C.Answer(s, n).result.content));
    }
  }

  /** However a run ends, its script performs it. */
  lemma FitPerforms(s: C.Setting, run: nat, n: nat, end: Run)
    requires Fits(s, end, n) && end == RunAgent(s.world, s.max, s.message, s.history)
    ensures Performs(Script(s, run, n, end), run, s.history, s.max, end)
  {
    hide Performs, Settled, Rounds, RunAgent, C.Stored, C.Answer;
    var asked := Rounds(s, run, n) + [Ask(run, C.Current(s, n))];
    if |end.prompts| == n {
      StoppedBetween(s, run, n, end);
    } else if end.appended == C.Stored(s, n) {
      NothingSettles(run, asked);
      assert asked + Puts(run, []) == asked && C.Stored(s, n) + [] == C.Stored(s, n);
      StoppedAfterAsk(s, run, n, [], end);
    } else if C.IsFinalAnswer(C.Answer(s, n)) {
      if Settled(run, asked) {
        ClosingSettles(s, run, n, asked);
      }
      StoppedAfterAsk(s, run, n, Closing(s, n), end);
    } else {
      StoppedBetween(s, run, n + 1, end);
    }
  }

  /** These are the acts of a run of the agent in this setting. */
  ghost predicate IsScript(acts: seq<Act>, s: C.Setting, run: nat) {
    var end := RunAgent(s.world, s.max, s.message, s.history);
    exists n :: 0 <= n <= MAX_ITERATIONS && C.Ends(s, end, n) && acts == Script(s, run, n, end)
  }

  /**
   Whatever the model, the tools and the cancel flag do, a run of the agent has a script, and every
   script of it is a list of legal acts: alone on its session, they send the conversations, store the
   messages and leave the history that the run does.
   */
  lemma RunsAreScripted(s: C.Setting, run: nat)
    ensures exists acts :: IsScript(acts, s, run)
    ensures forall acts | IsScript(acts, s, run) ::
              Performs(acts, run, s.history, s.max, RunAgent(s.world, s.max, s.message, s.history))
  {
    hide Performs, Script, Fits, C.Ends;
    var end := RunAgent(s.world, s.max, s.message, s.history);
    C.RunIsAConversation(s);
    var n :| 0 <= n <= MAX_ITERATIONS && C.Ends(s, end, n);
    assert IsScript(Script(s, run, n, end), s, run);
    forall acts | IsScript(acts, s, run)
      ensures Performs(acts, run, s.history, s.max, end)
    {
      var m :| 0 <= m <= MAX_ITERATIONS && C.Ends(s, end, m) && acts == Script(s, run, m, end);
      EndsFit(s, end, m);
      FitPerforms(s, run, m, end);
    }
  }

  // ---------- A cleanup during a run ----------

  /** What a run stores in its round `k`. */
  function RoundMessages(s: C.Setting, k: nat): seq<Message> {
    C.UserPart(s, k) + Exchange(s, k)
  }

  /** A run up to the end of round `k`, with the session cleaned up when `j` messages of that round were stored. */
  function CleanedRun(s: C.Setting, run: nat, k: nat, j: nat): seq<Act>
    requires j <= |RoundMessages(s, k)|
  {
    Rounds(s, run, k) + [Ask(run, C.Current(s, k))] + Puts(run, RoundMessages(s, k)[..j]) + [Cleanup]
    + Puts(run, RoundMessages(s, k)[j..])
  }

  lemma {:induction false} HistoryAfterCleanup(h: History, before: seq<Act>, run: nat, ms: seq<Message>, max: int)
    ensures HistoryAt(h, before + [Cleanup] + Puts(run, ms), max) == AppendAll([], ms, max)
    decreases |ms|
  {
    if ms == [] {
      assert before + [Cleanup] + Puts(run, ms) == before + [Cleanup];
      HistoryOne(h, before, Cleanup, max);
    } else {
      var init, last := ms[..|ms| - 1], ms[|ms| - 1];
      assert before + [Cleanup] + Puts(run, ms) == before + [Cleanup] + Puts(run, init) + [Put(run, last)];
      HistoryOne(h, before + [Cleanup] + Puts(run, init), Put(run, last), max);
      HistoryAfterCleanup(h, before, run, init, max);
    }
  }

  /** Without a user message nothing is ever cut. */
  lemma {:induction false} RepliesAreKept(ms: seq<Message>, max: int)
    requires forall m | m in ms :: m.role.Tool?
    ensures AppendAll([], ms, max) == ms
    decreases |ms|
  {
    if ms != [] {
      var init, last := ms[..|ms| - 1], ms[|ms| - 1];
      assert ms == init + [last];
      RepliesAreKept(init, max);
      AppendTrims(init, last, max);
      if 0 < max < |ms| {
        assert FirstUser(ms, KeepFrom(ms, max)) == |ms| by {
          assert forall i | 0 <= i < |ms| :: ms[i] in ms;
        }
      }
    }
  }

  lemma {:induction false} AppendAllScans(h: History, ms: seq<Message>, max: int)
    requires !ScanFrom(ScanAll(h), ms).Broken?
    ensures ScanAll(AppendAll(h, ms, max)) == ScanFrom(ScanAll(h), ms)
    decreases |ms|
  {
    if ms != [] {
      var init, last := ms[..|ms| - 1], ms[|ms| - 1];
      assert ms == init + [last];
      ScanAppend(ScanAll(h), init, [last]);
      assert [last][1..] == [];
      AppendAllScans(h, init, max);
      AppendScans(AppendAll(h, init, max), last, max);
    }
  }

  lemma RoundScans(s: C.Setting, k: nat)
    requires C.AsksForTools(C.Answer(s, k))
    ensures ScanFrom(Missing([]), Exchange(s, k)) == Missing([])
    ensures ScanFrom(Missing([]), RoundMessages(s, k)) == Missing([])
  {
    hide C.Results;
    RoundStores(s, k);
    var calls, results := C.Calls(s, k), C.Results(s, k);
    var replies := Replies(calls, results);
    assert Exchange(s, k)[1..] == replies;
    ScanReplies(Ids(calls), replies);
    assert replies[|calls|..] == [];
    assert ScanMessage(Missing([]), Exchange(s, k)[0]) == Missing(Ids(calls));
    ScanAppend(Missing([]), C.UserPart(s, k), Exchange(s, k));
    assert C.UserPart(s, k) != [] ==> C.UserPart(s, k)[1..] == [];
  }

  lemma LateCleanup(s: C.Setting, k: nat, j: nat)
    requires |C.UserPart(s, k)| < j < |RoundMessages(s, k)|
    ensures var rest := RoundMessages(s, k)[j..];
            rest != [] && (forall m | m in rest :: m.role.Tool?) && !WellFormed(rest)
  {
    var rest := RoundMessages(s, k)[j..];
    var from := j - |C.UserPart(s, k)|;
    assert rest == Exchange(s, k)[from..];
    assert forall i | from <= i < |Exchange(s, k)| :: Exchange(s, k)[i].role.Tool?;
    assert !Belongs(rest, 0);
    assert rest[0].role.Tool?;
  }

  lemma EarlyCleanup(s: C.Setting, k: nat, j: nat)
    requires C.AsksForTools(C.Answer(s, k)) && (j <= |C.UserPart(s, k)| || j == |RoundMessages(s, k)|)
    ensures ScanFrom(Missing([]), RoundMessages(s, k)[j..]) == Missing([])
  {
    RoundStores(s, k);
    RoundScans(s, k);
    var all := RoundMessages(s, k);
    if j == 0 {
      assert all[j..] == all;
    } else if j == |all| {
      assert all[j..] == [];
    } else {
      assert all[j..] == Exchange(s, k);
    }
  }

  /**
   A cleanup harms a run exactly when it falls inside a group: with the session reset when the run had
   stored `j` messages of a round that asked for tools, what the next model call is sent is well formed if
   and only if the reset came before the call was stored or after its last reply.
   */
  lemma CleanupInsideGroupBreaksIt(s: C.Setting, run: nat, k: nat, j: nat, message: string)
    requires C.AsksForTools(C.Answer(s, k)) && j <= |RoundMessages(s, k)|
    ensures WellFormed(Prompt(HistoryAt(s.history, CleanedRun(s, run, k, j), s.max), message)) <==>
            j <= |C.UserPart(s, k)| || j == |RoundMessages(s, k)|
  {
    hide C.Answer, C.UserPart, C.AsksForTools, Exchange;
    var before := Rounds(s, run, k) + [Ask(run, C.Current(s, k))] + Puts(run, RoundMessages(s, k)[..j]);
    var rest := RoundMessages(s, k)[j..];
    HistoryAfterCleanup(s.history, before, run, rest, s.max);
    PromptScans(AppendAll([], rest, s.max), message);
    if j <= |C.UserPart(s, k)| || j == |RoundMessages(s, k)| {
      EarlyCleanup(s, k, j);
      AppendAllScans([], rest, s.max);
    } else {
      LateCleanup(s, k, j);
      RepliesAreKept(rest, s.max);
      ScanDecidesGrammar(rest);
    }
  }
}
