/**
 What a run of the agent amounts to, told from the outside: which conversation each model call is
 given, what is stored and what is shown, round by round. It says nothing of states, counters or
 flags; the agent's loop is shown to do exactly this.
 */
module Conversation {
  import opened Sessions
  import opened Agent

  /** A run: its surroundings, the history limit, the user's message and the session's history. */
  datatype Setting = Setting(world: World, max: int, message: string, history: History)

  function ToolResults(w: World, from: nat, calls: seq<ToolCall>): (r: seq<string>)
    ensures |r| == |calls|
  {
    seq(|calls|, i requires 0 <= i < |calls| => w.tool(from + i, calls[i]))
  }

  function Outputs(results: seq<string>): seq<Chunk> {
    seq(|results|, i requires 0 <= i < |results| => ToolResult(results[i]))
  }

  /** The user's message goes with the first round only. */
  function Current(s: Setting, k: nat): string {
    if k == 0 then s.message else ""
  }

  function UserPart(s: Setting, k: nat): seq<Message> {
    if Current(s, k) == "" then [] else [UserMessage(Current(s, k))]
  }

  /** The session's history when round `k` begins: all that the earlier rounds stored, in order. */
  function Before(s: Setting, k: nat): History
    decreases k, 1
  {
    AppendAll(s.history, Stored(s, k), s.max)
  }

  function Answer(s: Setting, k: nat): Outcome
    decreases k, 2
  {
    s.world.llm(k + 1, Before(s, k), Current(s, k))
  }

  function Calls(s: Setting, k: nat): seq<ToolCall>
    decreases k, 3
  {
    match Answer(s, k)
    case Returned(_, result) => result.calls
    case Threw(_, _) => []
  }

  function Thinking(s: Setting, k: nat): string
    decreases k, 3
  {
    match Answer(s, k)
    case Returned(_, result) => result.reasoning
    case Threw(_, _) => ""
  }

  /** How many tools ran before round `k`. */
  function Executed(s: Setting, k: nat): nat
    decreases k, 0
  {
    if k == 0 then 0 else Executed(s, k - 1) + |Calls(s, k - 1)|
  }

  function Results(s: Setting, k: nat): (r: seq<string>)
    ensures |r| == |Calls(s, k)|
    decreases k, 4
  {
    ToolResults(s.world, Executed(s, k), Calls(s, k))
  }

  /** What the first `k` rounds store: the user's message once, then each call with its replies. */
  function Stored(s: Setting, k: nat): seq<Message>
    decreases k, 0
  {
    if k == 0 then []
    else
      Stored(s, k - 1) + UserPart(s, k - 1)
      + ([CallMessage(Calls(s, k - 1), Thinking(s, k - 1))] + Replies(Calls(s, k - 1), Results(s, k - 1)))
  }

  /** What the client is shown of the first `k` rounds: what the model streams, then the tool results. */
  function Shown(s: Setting, k: nat): seq<Chunk> {
    if k == 0 then []
    else Shown(s, k - 1) + AsChunks(Answer(s, k - 1).streamed) + Outputs(Results(s, k - 1))
  }

  /** The model answered and asked for tools. */
  predicate AsksForTools(o: Outcome) {
    o.Returned? && o.result.success && !o.result.canceled && o.result.calls != []
  }

  predicate IsFinalAnswer(o: Outcome) {
    o.Returned? && o.result.success && !o.result.canceled && o.result.calls == []
  }

  function FinalPart(content: string): seq<Message> {
    if content == "" then [] else [AssistantMessage(content)]
  }

  /** Why a model call failed, when it did. */
  predicate FailsWith(o: Outcome, error: string) {
    match o
    case Threw(_, what) => error == Failure(what)
    case Returned(_, result) =>
      !result.success && error == CallError(result.error)
  }

  /** The first `n` rounds all asked for tools; each conversation sent is what was stored before it. */
  predicate Unfolds(s: Setting, prompts: seq<History>, n: nat) {
    && n <= |prompts| <= n + 1
    && (forall j | 0 <= j < n :: AsksForTools(Answer(s, j)))
    && (forall j | 0 <= j < |prompts| :: prompts[j] == Prompt(Before(s, j), Current(s, j)))
  }

  predicate EndsDone(s: Setting, end: Run, n: nat) {
    && |end.prompts| == n + 1 && IsFinalAnswer(Answer(s, n))
    && end.appended == Stored(s, n) + UserPart(s, n) + FinalPart(Answer(s, n).result.content)
    && end.trace == Shown(s, n) + AsChunks(Answer(s, n).streamed) + [Done("[DONE]")]
  }

  ghost predicate EndsInError(s: Setting, end: Run, n: nat) {
    && end.appended == Stored(s, n)
    && if |end.prompts| == n then
         n == MAX_ITERATIONS && end.trace == Shown(s, n) + [Error("Max iterations reached"), Done("[DONE]")]
       else
         exists error :: FailsWith(Answer(s, n), error)
           && end.trace == Shown(s, n) + AsChunks(Answer(s, n).streamed) + [Error(error), Done("[DONE]")]
  }

  /** What the run's last look at the cancel flag saw. */
  predicate ToldToStop(s: Setting, end: Run) {
    end.looks > 0 && s.world.canceled(end.looks - 1)
  }

  /**
   A cancelled run stops after a whole step, and never without being told to: before a model call,
   after one, after the tools it asked for, or after the final answer was stored.
   */
  predicate EndsCanceled(s: Setting, end: Run, n: nat) {
    || (|end.prompts| == n && end.appended == Stored(s, n) && end.trace == Shown(s, n) && ToldToStop(s, end))
    || (&& |end.prompts| == n + 1 && Answer(s, n).Returned? && end.appended == Stored(s, n)
        && end.trace == Shown(s, n) + AsChunks(Answer(s, n).streamed)
        && (ToldToStop(s, end) || Answer(s, n).result.canceled))
    || (&& |end.prompts| == n + 1 && AsksForTools(Answer(s, n)) && end.appended == Stored(s, n + 1)
        && end.trace == Shown(s, n + 1) && ToldToStop(s, end))
    || (&& |end.prompts| == n + 1 && IsFinalAnswer(Answer(s, n))
        && end.appended == Stored(s, n) + UserPart(s, n) + FinalPart(Answer(s, n).result.content)
        && end.trace == Shown(s, n) + AsChunks(Answer(s, n).streamed) && ToldToStop(s, end))
  }

  ghost predicate Ends(s: Setting, end: Run, n: nat) {
    && Unfolds(s, end.prompts, n)
    && match end.status
       case DONE => EndsDone(s, end, n)
       case ERROR => EndsInError(s, end, n)
       case CANCELED => EndsCanceled(s, end, n)
       case _ => false
  }

  lemma EndUnfolds(s: Setting, end: Run, n: nat)
    requires Ends(s, end, n)
    ensures Unfolds(s, end.prompts, n)
  {
  }

  // ---------- The loop does this ----------

  lemma {:induction false} RunToolsIs(w: World, max: int, r: Run, calls: seq<ToolCall>)
    ensures var t, results := RunTools(w, max, r, calls), ToolResults(w, r.executions, calls);
            && t.appended == r.appended + Replies(calls, results)
            && t.trace == r.trace + Outputs(results)
            && t.executions == r.executions + |calls|
    decreases |calls|
  {
    hide Append;
    var results := ToolResults(w, r.executions, calls);
    if calls == [] {
      assert Replies(calls, results) == [] && Outputs(results) == [];
    } else {
      var reply := ToolMessage(calls[0].id, results[0]);
      var next := RunTool(w, max, r, calls[0]);
      RunToolsIs(w, max, next, calls[1..]);
      var rest := ToolResults(w, next.executions, calls[1..]);
      assert rest == results[1..];
      assert Replies(calls, results) == [reply] + Replies(calls[1..], rest);
      assert Outputs(results) == [ToolResult(results[0])] + Outputs(rest);
    }
  }

  /** The messages of a round that asked for tools. */
  function Group(w: World, from: nat, result: LlmResult): seq<Message> {
    [CallMessage(result.calls, result.reasoning)] + Replies(result.calls, ToolResults(w, from, result.calls))
  }

  lemma ExecuteToolsIs(w: World, max: int, r: Run, result: LlmResult)
    ensures var t := ExecuteTools(w, max, r, result.calls, result.reasoning);
            && t.appended == r.appended + Group(w, r.executions, result)
            && t.trace == r.trace + Outputs(ToolResults(w, r.executions, result.calls))
            && t.executions == r.executions + |result.calls|
            && t.prompts == r.prompts && t.iteration == r.iteration
  {
    var called := r.(status := EXECUTING_TOOLS).Store(CallMessage(result.calls, result.reasoning), max);
    RunToolsIs(w, max, called, result.calls);
    RunToolsFrame(w, max, called, result.calls);
  }

  function User(r: Run, message: string): seq<Message> {
    if r.iteration == 1 && message != "" then [UserMessage(message)] else []
  }

  lemma AfterToolsIs(w: World, max: int, message: string, r: Run, result: LlmResult)
    requires result.calls != []
    ensures var t := AfterCall(w, max, message, r, result);
            && t.run.appended == r.appended + User(r, message) + Group(w, r.executions, result)
            && t.run.trace == r.trace + Outputs(ToolResults(w, r.executions, result.calls))
            && t.run.executions == r.executions + |result.calls|
            && t.run.prompts == r.prompts && t.run.iteration == r.iteration
            && (t.Over? ==> t.run.status.CANCELED? && t.run.looks > 0 && w.canceled(t.run.looks - 1))
  {
    var stored := if r.iteration == 1 && message != "" then r.Store(UserMessage(message), max) else r;
    assert stored.appended == r.appended + User(r, message);
    ExecuteToolsIs(w, max, stored, result);
  }

  lemma AfterAnswerIs(w: World, max: int, message: string, r: Run, result: LlmResult)
    requires result.calls == []
    ensures var t := AfterCall(w, max, message, r, result);
            && t.Over?
            && t.run.appended == r.appended + User(r, message) + FinalPart(result.content)
            && t.run.prompts == r.prompts
            && if t.run.status.DONE? then t.run.trace == r.trace + [Done("[DONE]")]
               else t.run.status.CANCELED? && t.run.trace == r.trace && t.run.looks > 0 && w.canceled(t.run.looks - 1)
  {
    var stored := if r.iteration == 1 && message != "" then r.Store(UserMessage(message), max) else r;
    assert stored.appended == r.appended + User(r, message);
    assert r.trace + [] == r.trace;
  }

  /** The loop at the start of round `k`. */
  predicate Follows(s: Setting, r: Run, k: nat) {
    && Consistent(r, s.history, s.max)
    && r.iteration == k && |r.prompts| == k && Unfolds(s, r.prompts, k)
    && r.appended == Stored(s, k) && r.trace == Shown(s, k) && r.executions == Executed(s, k)
  }

  lemma UnfoldsPrompt(s: Setting, prompts: seq<History>, k: nat)
    requires Unfolds(s, prompts, k) && |prompts| == k
    ensures Unfolds(s, prompts + [Prompt(Before(s, k), Current(s, k))], k)
  {
  }

  /** What the model call of round `k` is given and gives. */
  lemma CallIs(s: Setting, r: Run, k: nat)
    requires Follows(s, r, k)
    ensures var (called, outcome) := CallModel(s.world, Look(r), s.message);
            && outcome == Answer(s, k)
            && called.trace == Shown(s, k) + AsChunks(Answer(s, k).streamed)
            && called.appended == r.appended && called.executions == r.executions
            && called.iteration == k + 1 && Unfolds(s, called.prompts, k) && |called.prompts| == k + 1
            && User(called, s.message) == UserPart(s, k)
  {
    HistoryIs(s, r, k);
    UnfoldsPrompt(s, r.prompts, k);
  }

  lemma HistoryIs(s: Setting, r: Run, k: nat)
    requires Consistent(r, s.history, s.max) && r.appended == Stored(s, k)
    ensures r.history == Before(s, k)
  {
  }

  lemma RoundIs(s: Setting, k: nat)
    requires Answer(s, k).Returned?
    ensures Stored(s, k + 1) == Stored(s, k) + UserPart(s, k) + Group(s.world, Executed(s, k), Answer(s, k).result)
    ensures Shown(s, k + 1) ==
            Shown(s, k) + AsChunks(Answer(s, k).streamed)
            + Outputs(ToolResults(s.world, Executed(s, k), Answer(s, k).result.calls))
    ensures Executed(s, k + 1) == Executed(s, k) + |Answer(s, k).result.calls|
  {
  }

  /** A round goes on to the next one, or ends the run. */
  ghost predicate RoundEnds(s: Setting, t: Turn, k: nat) {
    if t.More? then Follows(s, t.run, k + 1) else Ends(s, t.run, k)
  }

  lemma ToolRound(s: Setting, called: Run, k: nat, t: Turn)
    requires AsksForTools(Answer(s, k)) && Unfolds(s, called.prompts, k) && |called.prompts| == k + 1
    requires called.appended == Stored(s, k) && called.trace == Shown(s, k) + AsChunks(Answer(s, k).streamed)
    requires called.executions == Executed(s, k) && called.iteration == k + 1
    requires User(called, s.message) == UserPart(s, k)
    requires t == AfterCall(s.world, s.max, s.message, called, Answer(s, k).result)
    requires Consistent(t.run, s.history, s.max)
    ensures RoundEnds(s, t, k)
  {
    AfterToolsIs(s.world, s.max, s.message, called, Answer(s, k).result);
    RoundIs(s, k);
  }

  lemma AnswerRound(s: Setting, called: Run, k: nat, t: Turn)
    requires IsFinalAnswer(Answer(s, k)) && Unfolds(s, called.prompts, k) && |called.prompts| == k + 1
    requires called.appended == Stored(s, k) && called.trace == Shown(s, k) + AsChunks(Answer(s, k).streamed)
    requires called.iteration == k + 1 && User(called, s.message) == UserPart(s, k)
    requires t == AfterCall(s.world, s.max, s.message, called, Answer(s, k).result)
    ensures RoundEnds(s, t, k)
  {
    AfterAnswerIs(s.world, s.max, s.message, called, Answer(s, k).result);
  }

  lemma EndIs(r: Run, how: Status, error: string)
    requires error != ""
    ensures r.End(how, error).trace == r.trace + [Error(error), Done("[DONE]")]
  {
  }

  lemma FailedRound(s: Setting, called: Run, k: nat, error: string)
    requires FailsWith(Answer(s, k), error) && error != ""
    requires Unfolds(s, called.prompts, k) && |called.prompts| == k + 1
    requires called.appended == Stored(s, k) && called.trace == Shown(s, k) + AsChunks(Answer(s, k).streamed)
    ensures Ends(s, called.End(ERROR, error), k)
  {
    var end := called.End(ERROR, error);
    EndIs(called, ERROR, error);
  }

  /** A round whose model call returned. */
  lemma ReturnedRound(s: Setting, called: Run, k: nat, result: LlmResult, t: Turn)
    requires Answer(s, k).Returned? && result == Answer(s, k).result && !result.canceled
    requires Unfolds(s, called.prompts, k) && |called.prompts| == k + 1
    requires called.appended == Stored(s, k) && called.trace == Shown(s, k) + AsChunks(Answer(s, k).streamed)
    requires called.executions == Executed(s, k) && called.iteration == k + 1
    requires User(called, s.message) == UserPart(s, k)
    requires Consistent(t.run, s.history, s.max)
    requires t == if result.success then AfterCall(s.world, s.max, s.message, called, result)
                  else Over(called.End(ERROR, CallError(result.error)))
    ensures RoundEnds(s, t, k)
  {
    if !result.success {
      FailedRound(s, called, k, CallError(result.error));
    } else if result.calls != [] {
      ToolRound(s, called, k, t);
    } else {
      AnswerRound(s, called, k, t);
    }
  }

  /** What a round's call decides, given what the call was given and gave. */
  lemma CalledRound(s: Setting, called: Run, k: nat, t: Turn)
    requires Unfolds(s, called.prompts, k) && |called.prompts| == k + 1
    requires called.appended == Stored(s, k) && called.trace == Shown(s, k) + AsChunks(Answer(s, k).streamed)
    requires called.executions == Executed(s, k) && called.iteration == k + 1
    requires User(called, s.message) == UserPart(s, k)
    requires Consistent(t.run, s.history, s.max)
    requires t == AfterModel(s.world, s.max, s.message, called, Answer(s, k))
    ensures RoundEnds(s, t, k)
  {
    hide Consistent, Unfolds, Stored, Shown, Executed, AfterCall, Failure, CallError;
    var answer := Answer(s, k);
    if answer.Returned? && !s.world.canceled(called.looks) && !answer.result.canceled {
      ReturnedRound(s, Look(called), k, answer.result, t);
    }
  }

  lemma RoundFollows(s: Setting, r: Run, k: nat)
    requires Follows(s, r, k)
    ensures RoundEnds(s, TakeTurn(s.world, s.max, s.message, r), k)
  {
    TurnConsistent(s.world, s.max, s.message, r, s.history);
    var t := TakeTurn(s.world, s.max, s.message, r);
    if !s.world.canceled(r.looks) {
      CallIs(s, r, k);
      CalledRound(s, CallModel(s.world, Look(r), s.message).0, k, t);
    }
  }

  lemma LimitReached(s: Setting, r: Run, error: string)
    requires Follows(s, r, MAX_ITERATIONS) && error == "Max iterations reached"
    ensures Ends(s, r.End(ERROR, error), MAX_ITERATIONS)
  {
    EndIs(r, ERROR, error);
  }

  lemma {:induction false} LoopFollows(s: Setting, r: Run, k: nat) returns (n: nat)
    requires Follows(s, r, k) && k <= MAX_ITERATIONS
    ensures n <= MAX_ITERATIONS && Ends(s, Loop(s.world, s.max, s.message, r), n)
    decreases MAX_ITERATIONS - k
  {
    hide Ends, TakeTurn, Unfolds, Consistent, Stored, Shown, Executed;
    n := k;
    if k == MAX_ITERATIONS {
      LimitReached(s, r, "Max iterations reached");
    } else {
      TurnFrame(s.world, s.max, s.message, r);
      RoundFollows(s, r, k);
      var t := TakeTurn(s.world, s.max, s.message, r);
      if t.More? {
        n := LoopFollows(s, t.run, k + 1);
      }
    }
  }

  ghost predicate IsConversation(s: Setting, end: Run) {
    exists n :: 0 <= n <= MAX_ITERATIONS && Ends(s, end, n)
  }

  /**
   Every run is such a conversation: some number of rounds asked for tools, each was given all that was
   stored before it, the user's message was stored and sent once, and what was stored and shown is what
   the rounds say, ended as the last answer, the iteration limit or the cancel flag demands.
   */
  lemma RunIsAConversation(s: Setting)
    ensures IsConversation(s, RunAgent(s.world, s.max, s.message, s.history))
  {
    var begun := Begin(s.history);
    var n := LoopFollows(s, begun, 0);
    var end := Loop(s.world, s.max, s.message, begun);
    assert Ends(s, end, n);
  }
}
