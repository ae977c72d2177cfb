/**
 Agents that run on one session at once: each follows its own script, with the model answering to the
 history that its calls find there, which the other agents and cleanups change meanwhile.
 */
module Executions {
  import opened Text
  import opened Sessions
  import opened Agent
  import opened Interleaving
  import opened RunScripts
  import C = Conversation

  // ---------- A script fits every history ----------

  ghost predicate IgnoresHistory(w: World) {
    forall k: nat, a: History, b: History, message: string :: w.llm(k, a, message) == w.llm(k, b, message)
  }

  /** The two runs differ in their history and in the conversations sent only. */
  predicate Alike(a: Run, b: Run) {
    a == b.(history := a.history, prompts := a.prompts) && |a.prompts| == |b.prompts|
  }

  lemma {:induction false} RunToolsAlike(w: World, max: int, a: Run, b: Run, calls: seq<ToolCall>)
    requires Alike(a, b)
    ensures Alike(RunTools(w, max, a, calls), RunTools(w, max, b, calls))
    decreases |calls|
  {
    if calls != [] {
      RunToolsAlike(w, max, RunTool(w, max, a, calls[0]), RunTool(w, max, b, calls[0]), calls[1..]);
    }
  }

  lemma AfterCallAlike(w: World, max: int, message: string, a: Run, b: Run, result: LlmResult)
    requires Alike(a, b)
    ensures var s, t := AfterCall(w, max, message, a, result), AfterCall(w, max, message, b, result);
            s.More? == t.More? && Alike(s.run, t.run)
  {
    hide Append;
    if result.calls != [] {
      var user, call := UserMessage(message), CallMessage(result.calls, result.reasoning);
      var c := if a.iteration == 1 && message != "" then a.Store(user, max) else a;
      var d := if b.iteration == 1 && message != "" then b.Store(user, max) else b;
      RunToolsAlike(w, max, c.(status := EXECUTING_TOOLS).Store(call, max),
                    d.(status := EXECUTING_TOOLS).Store(call, max), result.calls);
    }
  }

  lemma TurnAlike(w: World, max: int, message: string, a: Run, b: Run)
    requires IgnoresHistory(w) && Alike(a, b)
    ensures var s, t := TakeTurn(w, max, message, a), TakeTurn(w, max, message, b);
            s.More? == t.More? && Alike(s.run, t.run)
  {
    hide AfterCall, Prompt;
    if !w.canceled(a.looks) {
      var (c, outcome) := CallModel(w, Look(a), message);
      var (d, same) := CallModel(w, Look(b), message);
      assert outcome == same && Alike(c, d);
      if outcome.Returned? {
        AfterCallAlike(w, max, message, Look(c), Look(d), outcome.result);
      }
    }
  }

  lemma {:induction false} LoopAlike(w: World, max: int, message: string, a: Run, b: Run)
    requires IgnoresHistory(w) && Alike(a, b)
    ensures Alike(Loop(w, max, message, a), Loop(w, max, message, b))
    decreases MAX_ITERATIONS - a.iteration
  {
    hide TakeTurn;
    if a.iteration < MAX_ITERATIONS {
      TurnFrame(w, max, message, a);
      TurnFrame(w, max, message, b);
      TurnAlike(w, max, message, a, b);
      if TakeTurn(w, max, message, a).More? {
        LoopAlike(w, max, message, TakeTurn(w, max, message, a).run, TakeTurn(w, max, message, b).run);
      }
    }
  }

  /** The same run on another history. */
  function On(s: C.Setting, h: History): C.Setting {
    s.(history := h)
  }

  /** The two agents' rounds before the `k`-th are the same. */
  predicate SameSoFar(s: C.Setting, t: C.Setting, k: nat) {
    C.Stored(s, k) == C.Stored(t, k) && C.Executed(s, k) == C.Executed(t, k) && C.Shown(s, k) == C.Shown(t, k)
  }

  /** They use the same tools and have the same user message. */
  ghost predicate SameMeans(s: C.Setting, t: C.Setting) {
    s.world.tool == t.world.tool && s.message == t.message
  }

  lemma SameExchange(s: C.Setting, t: C.Setting, k: nat)
    requires SameMeans(s, t) && SameSoFar(s, t, k) && C.Answer(s, k) == C.Answer(t, k)
    ensures Exchange(s, k) == Exchange(t, k) && C.Results(s, k) == C.Results(t, k)
    ensures C.Calls(s, k) == C.Calls(t, k) && C.UserPart(s, k) == C.UserPart(t, k)
  {
    hide C.Answer, C.Stored, C.Executed, C.Shown;
    assert C.Calls(s, k) == C.Calls(t, k);
  }

  lemma SameMore(s: C.Setting, t: C.Setting, k: nat)
    requires SameMeans(s, t) && SameSoFar(s, t, k) && C.Answer(s, k) == C.Answer(t, k)
    ensures SameSoFar(s, t, k + 1)
  {
    SameExchange(s, t, k);
  }

  lemma SameAnswer(s: C.Setting, h: History, k: nat)
    requires IgnoresHistory(s.world)
    ensures C.Answer(s, k) == C.Answer(On(s, h), k)
  {
    hide C.Before;
  }

  lemma {:induction false} SameRounds(s: C.Setting, h: History, k: nat)
    requires IgnoresHistory(s.world)
    ensures SameSoFar(s, On(s, h), k) && C.Answer(s, k) == C.Answer(On(s, h), k)
    decreases k
  {
    hide C.Before, C.Answer;
    SameAnswer(s, h, k);
    if k > 0 {
      SameRounds(s, h, k - 1);
      SameMore(s, On(s, h), k - 1);
    }
  }

  lemma {:induction false} SameActs(s: C.Setting, h: History, run: nat, k: nat)
    requires IgnoresHistory(s.world)
    ensures Rounds(s, run, k) == Rounds(On(s, h), run, k)
    decreases k
  {
    hide C.Before, C.Answer, SameSoFar, Exchange, C.UserPart;
    if k > 0 {
      SameActs(s, h, run, k - 1);
      SameRounds(s, h, k - 1);
      SameExchange(s, On(s, h), k - 1);
    }
  }

  lemma UnfoldsOn(s: C.Setting, h: History, n: nat, prompts: seq<History>, others: seq<History>, m: nat)
    requires IgnoresHistory(s.world) && |prompts| == |others|
    requires C.Unfolds(s, prompts, n) && C.Unfolds(On(s, h), others, m)
    ensures C.Unfolds(On(s, h), others, n)
  {
    hide C.Answer, C.Before, Prompt;
    forall j | 0 <= j < n
      ensures C.AsksForTools(C.Answer(On(s, h), j))
    {
      SameRounds(s, h, j);
    }
  }

  lemma FitsOn(s: C.Setting, h: History, n: nat, a: Run, b: Run, m: nat)
    requires IgnoresHistory(s.world) && Alike(a, b)
    requires Fits(s, a, n) && C.Unfolds(On(s, h), b.prompts, m)
    ensures Fits(On(s, h), b, n)
  {
    hide C.Stored, C.Answer, C.Unfolds, C.AsksForTools, C.IsFinalAnswer;
    SameRounds(s, h, n);
    SameRounds(s, h, n + 1);
    UnfoldsOn(s, h, n, a.prompts, b.prompts, m);
  }

  lemma SameScript(s: C.Setting, h: History, run: nat, n: nat, a: Run, b: Run)
    requires IgnoresHistory(s.world) && Alike(a, b)
    ensures Script(s, run, n, a) == Script(On(s, h), run, n, b)
  {
    SameActs(s, h, run, n);
    SameActs(s, h, run, n + 1);
    SameRounds(s, h, n);
  }

  /** With a model that does not look at its history, a script performs the run on every history. */
  lemma ScriptFitsEveryHistory(s: C.Setting, acts: seq<Act>, run: nat, h: History)
    requires IgnoresHistory(s.world) && IsScript(acts, s, run)
    ensures Performs(acts, run, h, s.max, RunAgent(s.world, s.max, s.message, h))
  {
    hide Performs, Fits, Script, Loop, C.Ends;
    var a, b := RunAgent(s.world, s.max, s.message, s.history), RunAgent(s.world, s.max, s.message, h);
    var n :| 0 <= n <= MAX_ITERATIONS && C.Ends(s, a, n) && acts == Script(s, run, n, a);
    EndsFit(s, a, n);
    LoopAlike(s.world, s.max, s.message, Begin(s.history), Begin(h));
    C.RunIsAConversation(On(s, h));
    var m :| 0 <= m <= MAX_ITERATIONS && C.Ends(On(s, h), b, m);
    C.EndUnfolds(On(s, h), b, m);
    FitsOn(s, h, n, a, b, m);
    SameScript(s, h, run, n, a, b);
    FitPerforms(On(s, h), run, n, b);
  }

  // ---------- Executions ----------

  /** An agent: what decides its steps, and its user's message. */
  datatype Job = Job(world: World, message: string)

  /** What one run did, in order. */
  function OfRun(acts: seq<Act>, run: nat): seq<Act> {
    if acts == [] then []
    else
      var last := acts[|acts| - 1];
      OfRun(acts[..|acts| - 1], run) + if !last.Cleanup? && last.run == run then [last] else []
  }

  /** The histories that the run's model calls found on the session. */
  function Found(h: History, acts: seq<Act>, run: nat, max: int): seq<History> {
    if acts == [] then []
    else
      var init, last := acts[..|acts| - 1], acts[|acts| - 1];
      Found(h, init, run, max) + if last.Ask? && last.run == run then [HistoryAt(h, init, max)] else []
  }

  /** The model as it answers when its calls find these histories. */
  function Facing(w: World, found: seq<History>): World {
    w.(llm := (k: nat, h, message) => w.llm(k, if 0 < k <= |found| then found[k - 1] else [], message))
  }

  function SettingOf(job: Job, found: seq<History>, max: int, h: History): C.Setting {
    C.Setting(Facing(job.world, found), max, job.message, h)
  }

  /** The run did the beginning of its script. */
  ghost predicate Plays(own: seq<Act>, run: nat, s: C.Setting) {
    exists script :: IsScript(script, s, run) && own <= script
  }

  /**
   The acts are those of agents on one session, and of cleanups: each agent does what it does when its
   model answers to the histories that its calls found there.
   */
  ghost predicate IsExecution(h: History, acts: seq<Act>, max: int, jobs: nat -> Job) {
    forall run: nat :: Plays(OfRun(acts, run), run, SettingOf(jobs(run), Found(h, acts, run, max), max, h))
  }

  lemma OfRunOne(acts: seq<Act>, act: Act, run: nat)
    ensures OfRun(acts + [act], run) == OfRun(acts, run) + if !act.Cleanup? && act.run == run then [act] else []
  {
    assert (acts + [act])[..|acts|] == acts;
  }

  lemma {:induction false} OwedOfRun(acts: seq<Act>, run: nat)
    ensures Owed(OfRun(acts, run), run) == Owed(acts, run)
    decreases |acts|
  {
    if acts != [] {
      var init, last := acts[..|acts| - 1], acts[|acts| - 1];
      OwedOfRun(init, run);
      if !last.Cleanup? && last.run == run {
        OwedOne(OfRun(init, run), last, run);
      } else {
        assert OfRun(acts, run) == OfRun(init, run);
      }
      assert acts == init + [last];
      OwedOne(init, last, run);
    }
  }

  /** Legality is a matter of each run's own acts. */
  lemma {:induction false} LegalIfEachRunIs(acts: seq<Act>)
    requires forall run: nat :: Legal(OfRun(acts, run))
    ensures Legal(acts)
    decreases |acts|
  {
    if acts != [] {
      var init, last := acts[..|acts| - 1], acts[|acts| - 1];
      forall run: nat
        ensures Legal(OfRun(init, run))
      {
        assert Legal(OfRun(acts, run));
        assert OfRun(init, run) == OfRun(acts, run)[..|OfRun(init, run)|];
        LegalPrefix(OfRun(acts, run), |OfRun(init, run)|);
      }
      LegalIfEachRunIs(init);
      if !last.Cleanup? {
        var own := OfRun(init, last.run);
        OwedOfRun(init, last.run);
        assert Legal(OfRun(acts, last.run));
        assert (own + [last])[..|own|] == own;
      }
    }
  }

  /** Whatever the agents' models, tools and cancel flags do. */
  lemma ExecutionIsLegal(h: History, acts: seq<Act>, max: int, jobs: nat -> Job)
    requires IsExecution(h, acts, max, jobs)
    ensures Legal(acts)
  {
    hide IsScript, Found, Legal;
    forall run: nat
      ensures Legal(OfRun(acts, run))
    {
      var own, s := OfRun(acts, run), SettingOf(jobs(run), Found(h, acts, run, max), max, h);
      assert Plays(own, run, s);
      var script :| IsScript(script, s, run) && own <= script;
      RunsAreScripted(s, run);
      LegalPrefix(script, |own|);
      assert own == script[..|own|];
    }
    LegalIfEachRunIs(acts);
  }

  /**
   Any number of agents on a session, and cleanups at any time: every conversation sent is well formed
   if every model call is made undisturbed, and only if, unless a reply fits another agent's call by accident.
   */
  lemma OverlappingAgents(h: History, acts: seq<Act>, max: int, jobs: nat -> Job)
    requires WellFormed(h) && IsExecution(h, acts, max, jobs)
    ensures AsksUndisturbed(h, acts, max) ==> EveryPromptWellFormed(h, acts, max)
    ensures NoAccidents(h, acts, max) || OwnIds(acts) ==>
              (EveryPromptWellFormed(h, acts, max) <==> AsksUndisturbed(h, acts, max))
  {
    hide IsExecution, NoAccidents, OwnIds, EveryPromptWellFormed, AsksUndisturbed;
    ExecutionIsLegal(h, acts, max, jobs);
    InterleavedPrompts(h, acts, max);
    if OwnIds(acts) {
      OwnIdsMeanNoAccidents(h, acts, max);
    }
  }

  // ---------- One agent alone ----------

  lemma {:induction false} FoundPuts(h: History, acts: seq<Act>, run: nat, ms: seq<Message>, max: int)
    ensures Found(h, acts + Puts(run, ms), run, max) == Found(h, acts, run, max)
    decreases |ms|
  {
    if ms == [] {
      assert acts + Puts(run, ms) == acts;
    } else {
      var init := ms[..|ms| - 1];
      assert acts + Puts(run, ms) == acts + Puts(run, init) + [Put(run, ms[|ms| - 1])];
      FoundPuts(h, acts, run, init, max);
      assert Found(h, acts, run, max) + [] == Found(h, acts, run, max);
    }
  }

  /** The call of each round finds what the rounds before it stored. */
  predicate FindsRounds(found: seq<History>, s: C.Setting) {
    forall j | 0 <= j < |found| :: found[j] == C.Before(s, j)
  }

  lemma FoundAfterAsk(s: C.Setting, run: nat, k: nat, ms: seq<Message>)
    requires forall j | 0 <= j < k :: C.AsksForTools(C.Answer(s, j))
    ensures Found(s.history, Rounds(s, run, k) + [Ask(run, C.Current(s, k))] + Puts(run, ms), run, s.max)
            == Found(s.history, Rounds(s, run, k), run, s.max) + [C.Before(s, k)]
  {
    hide C.Before, C.Current, C.UserPart, C.Answer, Exchange, HistoryAt, Rounds;
    var before, ask := Rounds(s, run, k), Ask(run, C.Current(s, k));
    RoundsHistory(s, run, k);
    FoundPuts(s.history, before + [ask], run, ms, s.max);
  }

  lemma FindsMore(found: seq<History>, s: C.Setting)
    requires FindsRounds(found, s)
    ensures FindsRounds(found + [C.Before(s, |found|)], s)
  {
    hide C.Before;
  }

  lemma FoundInRound(s: C.Setting, run: nat, k: nat)
    requires forall j | 0 <= j < k :: C.AsksForTools(C.Answer(s, j))
    ensures Found(s.history, Rounds(s, run, k + 1), run, s.max)
            == Found(s.history, Rounds(s, run, k), run, s.max) + [C.Before(s, k)]
  {
    hide C.Before, C.Current, C.UserPart, C.Answer, Exchange, HistoryAt, C.AsksForTools, Found;
    var asked := Rounds(s, run, k) + [Ask(run, C.Current(s, k))];
    FoundAfterAsk(s, run, k, C.UserPart(s, k));
    FoundPuts(s.history, asked + Puts(run, C.UserPart(s, k)), run, Exchange(s, k), s.max);
    assert Rounds(s, run, k + 1) == asked + Puts(run, C.UserPart(s, k)) + Puts(run, Exchange(s, k));
  }

  lemma {:induction false} FoundInRounds(s: C.Setting, run: nat, k: nat)
    requires forall j | 0 <= j < k :: C.AsksForTools(C.Answer(s, j))
    ensures var found := Found(s.history, Rounds(s, run, k), run, s.max);
            |found| == k && FindsRounds(found, s)
    decreases k
  {
    hide C.Before, C.Current, C.UserPart, C.Answer, Exchange, HistoryAt, C.AsksForTools, FindsRounds;
    if k > 0 {
      FoundInRounds(s, run, k - 1);
      FoundInRound(s, run, k - 1);
      FindsMore(Found(s.history, Rounds(s, run, k - 1), run, s.max), s);
    } else {
      assert Rounds(s, run, k) == [] && FindsRounds([], s) by {
        NothingFound(s);
      }
    }
  }

  lemma NothingFound(s: C.Setting)
    ensures FindsRounds([], s)
  {
  }

  lemma FoundInScript(s: C.Setting, run: nat, n: nat, end: Run)
    requires Fits(s, end, n)
    ensures var found := Found(s.history, Script(s, run, n, end), run, s.max);
            |found| == |end.prompts| && FindsRounds(found, s)
  {
    hide Found, Rounds, C.Before, C.Stored, C.Answer, Closing;
    FoundInRounds(s, run, n);
    if |end.prompts| == n {
    } else if end.appended == C.Stored(s, n) {
      FoundAfterAsk(s, run, n, []);
      var asked := Rounds(s, run, n) + [Ask(run, C.Current(s, n))];
      assert asked + Puts(run, []) == asked;
    } else if C.IsFinalAnswer(C.Answer(s, n)) {
      FoundAfterAsk(s, run, n, Closing(s, n));
    } else {
      FoundInRounds(s, run, n + 1);
    }
  }

  /** The same agent, its model fixed to the answers it gives when facing these histories. */
  function Fixed(s: C.Setting, found: seq<History>): C.Setting {
    s.(world := Facing(s.world, found))
  }

  lemma FixedAnswer(s: C.Setting, found: seq<History>, k: nat)
    requires FindsRounds(found, s) && SameSoFar(s, Fixed(s, found), k)
    ensures C.Before(s, k) == C.Before(Fixed(s, found), k)
    ensures k < |found| ==> C.Answer(s, k) == C.Answer(Fixed(s, found), k)
  {
    hide AppendAll, C.Stored, C.Executed, C.Shown;
  }

  lemma {:induction false} FixedRounds(s: C.Setting, found: seq<History>, k: nat)
    requires FindsRounds(found, s) && k <= |found|
    ensures SameSoFar(s, Fixed(s, found), k)
    ensures C.Before(s, k) == C.Before(Fixed(s, found), k)
    ensures k < |found| ==> C.Answer(s, k) == C.Answer(Fixed(s, found), k)
    decreases k
  {
    hide C.Before, C.Answer, FindsRounds;
    if k > 0 {
      FixedRounds(s, found, k - 1);
      SameMore(s, Fixed(s, found), k - 1);
    }
    FixedAnswer(s, found, k);
  }

  lemma {:induction false} RunToolsFixed(w: World, found: seq<History>, max: int, r: Run, calls: seq<ToolCall>)
    ensures RunTools(Facing(w, found), max, r, calls) == RunTools(w, max, r, calls)
    decreases |calls|
  {
    if calls != [] {
      RunToolsFixed(w, found, max, RunTool(w, max, r, calls[0]), calls[1..]);
    }
  }

  lemma AfterCallFixed(w: World, found: seq<History>, max: int, message: string, r: Run, result: LlmResult)
    ensures AfterCall(Facing(w, found), max, message, r, result) == AfterCall(w, max, message, r, result)
  {
    hide Append;
    var stored := if r.iteration == 1 && message != "" then r.Store(UserMessage(message), max) else r;
    var called := stored.(status := EXECUTING_TOOLS).Store(CallMessage(result.calls, result.reasoning), max);
    RunToolsFixed(w, found, max, called, result.calls);
  }

  /** A turn that calls the model with what was found there. */
  lemma TurnFixed(w: World, found: seq<History>, max: int, message: string, r: Run)
    requires w.canceled(r.looks) || (r.iteration < |found| && found[r.iteration] == r.history)
    ensures TakeTurn(Facing(w, found), max, message, r) == TakeTurn(w, max, message, r)
  {
    hide AfterCall;
    if !w.canceled(r.looks) {
      var (called, outcome) := CallModel(w, Look(r), message);
      assert CallModel(Facing(w, found), Look(r), message) == (called, outcome);
      if outcome.Returned? {
        AfterCallFixed(w, found, max, message, Look(called), outcome.result);
      }
    }
  }

  lemma {:induction false} PromptsGrow(w: World, max: int, message: string, r: Run)
    ensures |Loop(w, max, message, r).prompts| >= |r.prompts|
    decreases MAX_ITERATIONS - r.iteration
  {
    hide TakeTurn;
    if r.iteration < MAX_ITERATIONS {
      TurnFrame(w, max, message, r);
      var t := TakeTurn(w, max, message, r);
      TurnPrompts(w, max, message, r);
      if t.More? {
        PromptsGrow(w, max, message, t.run);
      }
    }
  }

  lemma TurnPrompts(w: World, max: int, message: string, r: Run)
    ensures |TakeTurn(w, max, message, r).run.prompts| == |r.prompts| + if w.canceled(r.looks) then 0 else 1
  {
    hide AfterCall;
    if !w.canceled(r.looks) {
      var (called, outcome) := CallModel(w, Look(r), message);
      if outcome.Returned? {
        AfterCallFrame(w, max, message, Look(called), outcome.result);
      }
    }
  }

  lemma {:induction false} LoopFixed(s: C.Setting, found: seq<History>, r: Run, k: nat)
    requires C.Follows(s, r, k) && k <= MAX_ITERATIONS && FindsRounds(found, s)
    requires |Loop(s.world, s.max, s.message, r).prompts| == |found|
    ensures Loop(Facing(s.world, found), s.max, s.message, r) == Loop(s.world, s.max, s.message, r)
    decreases MAX_ITERATIONS - k
  {
    hide TakeTurn, C.Ends, C.Before, C.Stored, C.Shown, C.Executed, C.Unfolds, Consistent;
    if k < MAX_ITERATIONS {
      C.HistoryIs(s, r, k);
      C.RoundFollows(s, r, k);
      TurnFrame(s.world, s.max, s.message, r);
      TurnPrompts(s.world, s.max, s.message, r);
      var t := TakeTurn(s.world, s.max, s.message, r);
      if t.More? {
        PromptsGrow(s.world, s.max, s.message, t.run);
      }
      TurnFixed(s.world, found, s.max, s.message, r);
      if t.More? {
        LoopFixed(s, found, t.run, k + 1);
      }
    }
  }

  lemma {:induction false} FixedActs(s: C.Setting, found: seq<History>, run: nat, k: nat)
    requires FindsRounds(found, s) && k <= |found|
    ensures Rounds(Fixed(s, found), run, k) == Rounds(s, run, k)
    decreases k
  {
    hide C.Before, C.Answer, FindsRounds, SameSoFar, Exchange, C.UserPart;
    if k > 0 {
      FixedActs(s, found, run, k - 1);
      FixedRounds(s, found, k - 1);
      SameExchange(s, Fixed(s, found), k - 1);
    }
  }

  lemma FixedScript(s: C.Setting, found: seq<History>, run: nat, n: nat, end: Run)
    requires FindsRounds(found, s) && |found| == |end.prompts| && n <= |found| <= n + 1
    ensures Script(Fixed(s, found), run, n, end) == Script(s, run, n, end)
  {
    hide C.Stored, C.Answer, Rounds;
    FixedActs(s, found, run, n);
    FixedRounds(s, found, n);
    if n < |found| {
      FixedActs(s, found, run, n + 1);
    }
  }

  lemma FixedEnds(s: C.Setting, found: seq<History>, n: nat, end: Run)
    requires FindsRounds(found, s) && |found| == |end.prompts| && C.Ends(s, end, n)
    ensures C.Ends(Fixed(s, found), end, n)
  {
    hide C.Stored, C.Shown, C.Answer, C.Before;
    C.EndUnfolds(s, end, n);
    FixedUnfolds(s, found, n, end.prompts);
    FixedRounds(s, found, n);
    if n < |found| {
      FixedRounds(s, found, n + 1);
    }
  }

  lemma FixedUnfolds(s: C.Setting, found: seq<History>, n: nat, prompts: seq<History>)
    requires FindsRounds(found, s) && |found| == |prompts| && C.Unfolds(s, prompts, n)
    ensures C.Unfolds(Fixed(s, found), prompts, n)
  {
    hide C.Answer, C.Before, C.AsksForTools, Prompt;
    forall j | 0 <= j < |prompts|
      ensures C.Before(s, j) == C.Before(Fixed(s, found), j) && C.Answer(s, j) == C.Answer(Fixed(s, found), j)
    {
      FixedRounds(s, found, j);
    }
  }

  lemma ScriptIsFixedScript(s: C.Setting, acts: seq<Act>, run: nat)
    requires IsScript(acts, s, run)
    ensures IsScript(acts, Fixed(s, Found(s.history, acts, run, s.max)), run)
  {
    hide Found, Script, Fits, Loop, C.Ends, FindsRounds;
    var end := RunAgent(s.world, s.max, s.message, s.history);
    var n :| 0 <= n <= MAX_ITERATIONS && C.Ends(s, end, n) && acts == Script(s, run, n, end);
    EndsFit(s, end, n);
    C.EndUnfolds(s, end, n);
    var found := Found(s.history, acts, run, s.max);
    FoundInScript(s, run, n, end);
    LoopFixed(s, found, Begin(s.history), 0);
    FixedScript(s, found, run, n, end);
    FixedEnds(s, found, n, end);
    var t := Fixed(s, found);
    assert RunAgent(t.world, t.max, t.message, t.history) == end;
    assert C.Ends(t, end, n) && acts == Script(t, run, n, end);
  }

  lemma {:induction false} OwnActs(acts: seq<Act>, own: nat, run: nat)
    requires IsOf(own, acts)
    ensures OfRun(acts, run) == if run == own then acts else []
    decreases |acts|
  {
    if acts != [] {
      var init := acts[..|acts| - 1];
      assert forall a | a in init :: a in acts;
      OwnActs(init, own, run);
      assert acts == init + [acts[|acts| - 1]];
    }
  }

  /** An agent that runs alone on a session is an execution. */
  lemma AloneIsAnExecution(s: C.Setting, acts: seq<Act>, own: nat)
    requires IsScript(acts, s, own)
    ensures IsExecution(s.history, acts, s.max, run => Job(s.world, s.message))
  {
    hide IsScript, Found;
    RunsAreScripted(s, own);
    ScriptIsFixedScript(s, acts, own);
    forall run: nat
      ensures Plays(OfRun(acts, run), run, Fixed(s, Found(s.history, acts, run, s.max)))
    {
      var t := Fixed(s, Found(s.history, acts, run, s.max));
      OwnActs(acts, own, run);
      RunsAreScripted(t, run);
      var script := if run == own then acts else var other :| IsScript(other, t, run); other;
      assert IsScript(script, t, run) && OfRun(acts, run) <= script;
    }
  }

  // ---------- Two agents that collide ----------

  /** A model that always asks for these tools, and nobody who cancels. */
  function Eager(calls: seq<ToolCall>): World {
    World(_ => false, (_, _, _) => Returned([], LlmResult(calls, "", "", true, "", false)), (_, _) => "")
  }

  lemma {:induction false} FirstRoundFirst(s: C.Setting, run: nat, k: nat)
    requires k > 0
    ensures Rounds(s, run, 1) <= Rounds(s, run, k)
    decreases k
  {
    hide C.Current, C.UserPart, Exchange;
    if k > 1 {
      FirstRoundFirst(s, run, k - 1);
    }
  }

  lemma EagerEnds(s: C.Setting, calls: seq<ToolCall>, end: Run, n: nat)
    requires calls != [] && s.world.canceled == Eager(calls).canceled
    requires forall k: nat :: C.Answer(s, k) == Returned([], LlmResult(calls, "", "", true, "", false))
    requires C.Ends(s, end, n)
    ensures n == |end.prompts| == MAX_ITERATIONS
  {
    hide C.Stored, C.Shown;
    var answer := C.Answer(s, n);
    assert answer.result.calls == calls && answer.result.success && !answer.result.canceled;
    assert !s.world.canceled(if end.looks > 0 then end.looks - 1 else 0);
  }

  /** Such an agent begins with its question and the model's first call. */
  lemma EagerPlays(s: C.Setting, run: nat, calls: seq<ToolCall>, own: seq<Act>)
    requires calls != [] && s.world.canceled == Eager(calls).canceled
    requires forall k: nat :: C.Answer(s, k) == Returned([], LlmResult(calls, "", "", true, "", false))
    requires own <= Rounds(s, run, 1)
    ensures Plays(own, run, s)
  {
    hide C.Ends, C.Answer, Rounds;
    RunsAreScripted(s, run);
    var script :| IsScript(script, s, run);
    var end := RunAgent(s.world, s.max, s.message, s.history);
    var n :| 0 <= n <= MAX_ITERATIONS && C.Ends(s, end, n) && script == Script(s, run, n, end);
    EagerEnds(s, calls, end, n);
    FirstRoundFirst(s, run, n);
  }

  /** Both agents of an overlap are agents, so it can happen, on every session and with every limit. */
  lemma OverlapIsAnExecution(h: History, max: int, question: string, calls: seq<ToolCall>, other: string)
    requires calls != []
    ensures IsExecution(h, Overlap(question, calls, other), max,
                        run => Job(Eager(calls), if run == 0 then question else other))
  {
    hide Found, Plays;
    var acts, jobs := Overlap(question, calls, other), run => Job(Eager(calls), if run == 0 then question else other);
    forall run: nat
      ensures Plays(OfRun(acts, run), run, SettingOf(jobs(run), Found(h, acts, run, max), max, h))
    {
      var s := SettingOf(jobs(run), Found(h, acts, run, max), max, h);
      OverlapOfRun(question, calls, other, run);
      EagerPlays(s, run, calls, OfRun(acts, run));
    }
  }

  lemma OverlapOfRun(question: string, calls: seq<ToolCall>, other: string, run: nat)
    ensures OfRun(Overlap(question, calls, other), run) ==
            if run == 0 then Called(question, calls) else if run == 1 then [Ask(1, other)] else []
  {
    hide OfRun;
    var called := Called(question, calls);
    OwnActs(called, 0, run);
    OfRunOne(called, Ask(1, other), run);
    assert called + [] == called && [] + [Ask(1, other)] == [Ask(1, other)];
  }
}
