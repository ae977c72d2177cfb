/**
 One run of the agent: it calls the model, runs the tools the model asks for, stores both in the
 session's history and emits what the client should see, until it is done, fails or is cancelled.
 The model, the tools and the cancel flag are arbitrary.
 */
module Agent {
  import opened Text
  import opened Sessions

  const MAX_ITERATIONS: nat := 10

  datatype Status = IDLE | CALLING_LLM | EXECUTING_TOOLS | DONE | CANCELED | ERROR {
    predicate Final() {
      DONE? || CANCELED? || ERROR?
    }
  }

  datatype Chunk =
    | Content(data: string)
    | Reasoning(data: string)
    | ToolResult(data: string)
    | Error(data: string)
    | Done(data: string)

  /** What a model call emits while it streams. */
  datatype Streamed = Text(data: string) | Thought(data: string)

  datatype LlmResult = LlmResult(
    calls: seq<ToolCall>,
    content: string,
    reasoning: string,
    success: bool,
    error: string,
    canceled: bool)

  /** A model call returns, or throws an exception whose message may be unknown. */
  datatype Outcome =
    | Returned(streamed: seq<Streamed>, result: LlmResult)
    | Threw(streamed: seq<Streamed>, what: Option<string>)

  /**
   `canceled(k)` is what the k-th look at the cancel flag sees, `llm(k, history, message)` how the
   k-th model call ends, `tool(k, call)` what the k-th tool execution returns.
   */
  datatype World = World(
    canceled: nat -> bool,
    llm: (nat, History, string) -> Outcome,
    tool: (nat, ToolCall) -> string)

  /** A run so far: `appended` are the messages it stored, `prompts` the conversations it sent. */
  datatype Run = Run(
    status: Status,
    iteration: nat,
    looks: nat,
    executions: nat,
    history: History,
    appended: seq<Message>,
    trace: seq<Chunk>,
    prompts: seq<History>)
  {
    function Emit(chunk: Chunk): Run {
      this.(trace := trace + [chunk])
    }

    function Store(m: Message, max: int): Run {
      this.(history := Append(history, m, max), appended := appended + [m])
    }

    /** The last events of a run; they are sent once. */
    function End(how: Status, error: string): Run {
      this.(status := how, trace := trace + (if error != "" then [Error(error)] else []) + [Done("[DONE]")])
    }
  }

  function Begin(h: History): Run {
    Run(IDLE, 0, 0, 0, h, [], [], [])
  }

  function AsChunks(streamed: seq<Streamed>): (r: seq<Chunk>)
    ensures |r| == |streamed|
    ensures forall c | c in r :: c.Content? || c.Reasoning?
  {
    seq(|streamed|, i requires 0 <= i < |streamed| =>
      if streamed[i].Text? then Content(streamed[i].data) else Reasoning(streamed[i].data))
  }

  /** The messages a request carries: the history, and the new user message if there is one. */
  function Prompt(h: History, message: string): History {
    if message == "" then h else h + [UserMessage(message)]
  }

  /** Runs one tool, emitting and storing its result. */
  function RunTool(w: World, max: int, r: Run, call: ToolCall): Run {
    var result := w.tool(r.executions, call);
    r.Emit(ToolResult(result)).Store(ToolMessage(call.id, result), max).(executions := r.executions + 1)
  }

  /** Runs the tools in order. */
  function RunTools(w: World, max: int, r: Run, calls: seq<ToolCall>): Run
    decreases |calls|
  {
    if calls == [] then r else RunTools(w, max, RunTool(w, max, r, calls[0]), calls[1..])
  }

  function ExecuteTools(w: World, max: int, r: Run, calls: seq<ToolCall>, reasoning: string): Run {
    RunTools(w, max, r.(status := EXECUTING_TOOLS).Store(CallMessage(calls, reasoning), max), calls)
  }

  function Failure(what: Option<string>): (e: string)
    ensures e != ""
  {
    match what
    case Some(text) => "Agent exception: " + text
    case None => "Agent unknown exception"
  }

  function CallError(error: string): (e: string)
    ensures e != ""
  {
    if error == "" then "LLM call failed" else error
  }

  /** The model call of the next iteration, with what it streams. */
  function CallModel(w: World, r: Run, message: string): (Run, Outcome) {
    var k := r.iteration + 1;
    var current := if k == 1 then message else "";
    var outcome := w.llm(k, r.history, current);
    (r.(status := CALLING_LLM, iteration := k, trace := r.trace + AsChunks(outcome.streamed),
        prompts := r.prompts + [Prompt(r.history, current)]),
     outcome)
  }

  datatype Turn = More(run: Run) | Over(run: Run)

  function Look(r: Run): Run {
    r.(looks := r.looks + 1)
  }

  /** What follows a model call that succeeded. */
  function AfterCall(w: World, max: int, message: string, r: Run, result: LlmResult): Turn {
    var stored := if r.iteration == 1 && message != "" then r.Store(UserMessage(message), max) else r;
    if result.calls != [] then
      var ran := ExecuteTools(w, max, stored, result.calls, result.reasoning);
      if w.canceled(ran.looks) then Over(Look(ran).(status := CANCELED)) else More(Look(ran))
    else
      var answered := if result.content != "" then stored.Store(AssistantMessage(result.content), max) else stored;
      if w.canceled(answered.looks) then Over(Look(answered).(status := CANCELED))
      else Over(Look(answered).End(DONE, ""))
  }

  /** What follows a model call, however it ended. */
  function AfterModel(w: World, max: int, message: string, called: Run, outcome: Outcome): Turn {
    match outcome
    case Threw(_, what) => Over(called.End(ERROR, Failure(what)))
    case Returned(_, result) =>
      if w.canceled(called.looks) || result.canceled then Over(Look(called).(status := CANCELED))
      else if !result.success then
        Over(Look(called).End(ERROR, CallError(result.error)))
      else AfterCall(w, max, message, Look(called), result)
  }

  /** One turn of the agent's loop. */
  function TakeTurn(w: World, max: int, message: string, r: Run): Turn {
    if w.canceled(r.looks) then Over(Look(r).(status := CANCELED))
    else
      var (called, outcome) := CallModel(w, Look(r), message);
      AfterModel(w, max, message, called, outcome)
  }

  lemma RunToolsFrame(w: World, max: int, r: Run, calls: seq<ToolCall>)
    ensures var t := RunTools(w, max, r, calls);
            t.iteration == r.iteration && t.status == r.status && t.prompts == r.prompts && t.looks == r.looks
    decreases |calls|
  {
    if calls != [] {
      RunToolsFrame(w, max, RunTool(w, max, r, calls[0]), calls[1..]);
    }
  }

  lemma AfterCallFrame(w: World, max: int, message: string, r: Run, result: LlmResult)
    ensures var t := AfterCall(w, max, message, r, result);
            && (t.More? ==> t.run.status == EXECUTING_TOOLS) && (t.Over? ==> t.run.status.Final())
            && t.run.iteration == r.iteration && t.run.prompts == r.prompts
  {
    if result.calls != [] {
      var stored := if r.iteration == 1 && message != "" then r.Store(UserMessage(message), max) else r;
      RunToolsFrame(w, max, stored.(status := EXECUTING_TOOLS).Store(CallMessage(result.calls, result.reasoning), max),
                    result.calls);
    }
  }

  lemma TurnFrame(w: World, max: int, message: string, r: Run)
    ensures var t := TakeTurn(w, max, message, r);
            && (t.More? ==> t.run.iteration == r.iteration + 1 && t.run.status == EXECUTING_TOOLS)
            && (t.Over? ==> t.run.status.Final() && t.run.iteration <= r.iteration + 1)
            && |t.run.prompts| - |r.prompts| == t.run.iteration - r.iteration
  {
    hide AfterCall;
    if !w.canceled(r.looks) {
      var (called, outcome) := CallModel(w, Look(r), message);
      if outcome.Returned? {
        AfterCallFrame(w, max, message, Look(called), outcome.result);
      }
    }
  }

  /** The loop: at most `MAX_ITERATIONS` turns, and an error when they do not suffice. */
  function Loop(w: World, max: int, message: string, r: Run): Run
    decreases MAX_ITERATIONS - r.iteration
  {
    if r.iteration >= MAX_ITERATIONS then r.End(ERROR, "Max iterations reached")
    else
      TurnFrame(w, max, message, r);
      match TakeTurn(w, max, message, r)
      case Over(end) => end
      case More(next) => Loop(w, max, message, next)
  }

  function RunAgent(w: World, max: int, message: string, h: History): Run {
    Loop(w, max, message, Begin(h))
  }

  // ---------- The event trace ----------

  predicate IsOutput(c: Chunk) {
    c.Content? || c.Reasoning? || c.ToolResult?
  }

  predicate AllOutput(trace: seq<Chunk>) {
    forall c | c in trace :: IsOutput(c)
  }

  /** How a trace ends for a run that ended this way. */
  predicate EndsAs(trace: seq<Chunk>, how: Status) {
    match how
    case DONE => trace != [] && trace[|trace| - 1] == Done("[DONE]") && AllOutput(trace[..|trace| - 1])
    case ERROR =>
      && |trace| >= 2 && trace[|trace| - 1] == Done("[DONE]")
      && trace[|trace| - 2].Error? && trace[|trace| - 2].data != ""
      && AllOutput(trace[..|trace| - 2])
    case CANCELED => AllOutput(trace)
    case _ => false
  }

  lemma EndKeepsGrammar(r: Run, how: Status, error: string)
    requires AllOutput(r.trace) && (how == DONE <==> error == "") && (how == DONE || how == ERROR)
    ensures EndsAs(r.End(how, error).trace, how)
  {
    var t := r.End(how, error).trace;
    assert t[..|r.trace|] == r.trace;
  }

  lemma RunToolsTrace(w: World, max: int, r: Run, calls: seq<ToolCall>)
    requires AllOutput(r.trace)
    ensures AllOutput(RunTools(w, max, r, calls).trace)
    decreases |calls|
  {
    if calls != [] {
      RunToolsTrace(w, max, RunTool(w, max, r, calls[0]), calls[1..]);
    }
  }

  lemma ExecuteToolsTrace(w: World, max: int, r: Run, calls: seq<ToolCall>, reasoning: string)
    requires AllOutput(r.trace)
    ensures AllOutput(ExecuteTools(w, max, r, calls, reasoning).trace)
  {
    RunToolsTrace(w, max, r.(status := EXECUTING_TOOLS).Store(CallMessage(calls, reasoning), max), calls);
  }

  lemma AfterCallTrace(w: World, max: int, message: string, r: Run, result: LlmResult)
    requires AllOutput(r.trace)
    ensures var t := AfterCall(w, max, message, r, result);
            if t.More? then AllOutput(t.run.trace) else EndsAs(t.run.trace, t.run.status)
  {
    hide AllOutput, ExecuteTools, Append;
    var stored := if r.iteration == 1 && message != "" then r.Store(UserMessage(message), max) else r;
    if result.calls != [] {
      ExecuteToolsTrace(w, max, stored, result.calls, result.reasoning);
    } else {
      var answered := if result.content != "" then stored.Store(AssistantMessage(result.content), max) else stored;
      EndKeepsGrammar(Look(answered), DONE, "");
    }
  }

  lemma TurnTrace(w: World, max: int, message: string, r: Run)
    requires AllOutput(r.trace)
    ensures var t := TakeTurn(w, max, message, r);
            if t.More? then AllOutput(t.run.trace) else EndsAs(t.run.trace, t.run.status)
  {
    if !w.canceled(r.looks) {
      var (called, outcome) := CallModel(w, Look(r), message);
      assert AllOutput(called.trace);
      match outcome
      case Threw(_, what) =>
        EndKeepsGrammar(called, ERROR, Failure(what));
      case Returned(_, result) =>
        if !w.canceled(called.looks) && !result.canceled {
          if !result.success {
            EndKeepsGrammar(Look(called), ERROR, CallError(result.error));
          } else {
            AfterCallTrace(w, max, message, Look(called), result);
          }
        }
    }
  }

  lemma {:induction false} LoopTrace(w: World, max: int, message: string, r: Run)
    requires AllOutput(r.trace) && |r.prompts| == r.iteration <= MAX_ITERATIONS
    ensures var end := Loop(w, max, message, r);
            && EndsAs(end.trace, end.status)
            && |end.prompts| == end.iteration <= MAX_ITERATIONS
    decreases MAX_ITERATIONS - r.iteration
  {
    if r.iteration >= MAX_ITERATIONS {
      EndKeepsGrammar(r, ERROR, "Max iterations reached");
    } else {
      TurnFrame(w, max, message, r);
      TurnTrace(w, max, message, r);
      var t := TakeTurn(w, max, message, r);
      if t.More? {
        LoopTrace(w, max, message, t.run);
      }
    }
  }

  /**
   Whatever the model, the tools and the cancel flag do: a run makes at most ten model calls and
   emits output events followed by nothing if it was cancelled, by one DONE if it finished, and by
   one ERROR and one DONE if it failed.
   */
  lemma TraceGrammar(w: World, max: int, message: string, h: History)
    ensures var end := RunAgent(w, max, message, h);
            && end.status.Final() && EndsAs(end.trace, end.status)
            && |end.prompts| <= MAX_ITERATIONS
  {
    LoopTrace(w, max, message, Begin(h));
  }

  // ---------- The conversation ----------

  lemma {:induction false} RunToolsClosesGroup(w: World, max: int, r: Run, calls: seq<ToolCall>)
    requires ScanAll(r.history) == Missing(Ids(calls))
    ensures ScanAll(RunTools(w, max, r, calls).history) == Missing([])
    decreases |calls|
  {
    if calls != [] {
      var result := w.tool(r.executions, calls[0]);
      var reply := ToolMessage(calls[0].id, result);
      assert Ids(calls)[1..] == Ids(calls[1..]);
      AppendScans(r.history, reply, max);
      RunToolsClosesGroup(w, max, RunTool(w, max, r, calls[0]), calls[1..]);
    }
  }

  lemma AfterCallHistory(w: World, max: int, message: string, r: Run, result: LlmResult)
    requires ScanAll(r.history) == Missing([])
    ensures var t := AfterCall(w, max, message, r, result);
            ScanAll(t.run.history) == Missing([]) && t.run.prompts == r.prompts
  {
    AppendScans(r.history, UserMessage(message), max);
    var stored := if r.iteration == 1 && message != "" then r.Store(UserMessage(message), max) else r;
    if result.calls != [] {
      AppendScans(stored.history, CallMessage(result.calls, result.reasoning), max);
      var called := stored.(status := EXECUTING_TOOLS).Store(CallMessage(result.calls, result.reasoning), max);
      RunToolsClosesGroup(w, max, called, result.calls);
      RunToolsFrame(w, max, called, result.calls);
    } else {
      AppendScans(stored.history, AssistantMessage(result.content), max);
    }
  }

  lemma PromptIsWellFormed(h: History, message: string)
    requires ScanAll(h) == Missing([])
    ensures WellFormed(Prompt(h, message))
  {
    if message != "" {
      ScanOne(h, UserMessage(message));
    }
    ScanDecidesGrammar(Prompt(h, message));
  }

  lemma TurnHistory(w: World, max: int, message: string, r: Run)
    requires ScanAll(r.history) == Missing([]) && forall p | p in r.prompts :: WellFormed(p)
    ensures var t := TakeTurn(w, max, message, r);
            ScanAll(t.run.history) == Missing([]) && forall p | p in t.run.prompts :: WellFormed(p)
  {
    if !w.canceled(r.looks) {
      PromptIsWellFormed(r.history, if r.iteration == 0 then message else "");
      var (called, outcome) := CallModel(w, Look(r), message);
      if outcome.Returned? {
        AfterCallHistory(w, max, message, Look(called), outcome.result);
      }
    }
  }

  lemma {:induction false} LoopHistory(w: World, max: int, message: string, r: Run)
    requires ScanAll(r.history) == Missing([]) && forall p | p in r.prompts :: WellFormed(p)
    ensures var end := Loop(w, max, message, r);
            ScanAll(end.history) == Missing([]) && forall p | p in end.prompts :: WellFormed(p)
    decreases MAX_ITERATIONS - r.iteration
  {
    if r.iteration < MAX_ITERATIONS {
      TurnFrame(w, max, message, r);
      TurnHistory(w, max, message, r);
      var t := TakeTurn(w, max, message, r);
      if t.More? {
        LoopHistory(w, max, message, t.run);
      }
    }
  }

  /** A run: its surroundings, the history limit in force, and the user's message. */
  datatype Request = Request(world: World, max: int, message: string)

  /** The runs made on one session, one after the other. */
  function RunsInTurn(requests: seq<Request>, h: History): seq<Run> {
    if requests == [] then []
    else
      var run := RunAgent(requests[0].world, requests[0].max, requests[0].message, h);
      [run] + RunsInTurn(requests[1..], run.history)
  }

  /**
   Over any sequence of runs on a session, however each ended: every conversation sent to the model
   is well formed, that is, every call is followed by exactly its replies and no reply is orphaned.
   */
  lemma {:induction false} PromptsAlwaysWellFormed(requests: seq<Request>, h: History)
    requires WellFormed(h)
    ensures forall run | run in RunsInTurn(requests, h) ::
              WellFormed(run.history) && forall p | p in run.prompts :: WellFormed(p)
    decreases |requests|
  {
    if requests != [] {
      ScanDecidesGrammar(h);
      LoopHistory(requests[0].world, requests[0].max, requests[0].message, Begin(h));
      var run := RunAgent(requests[0].world, requests[0].max, requests[0].message, h);
      ScanDecidesGrammar(run.history);
      PromptsAlwaysWellFormed(requests[1..], run.history);
    }
  }

  // ---------- What is stored ----------

  function UserCount(ms: seq<Message>): nat {
    if ms == [] then 0 else (if ms[|ms| - 1].role.User? then 1 else 0) + UserCount(ms[..|ms| - 1])
  }

  /** Contents of the tool messages, and of the tool results emitted. */
  function ToolContents(ms: seq<Message>): seq<string> {
    if ms == [] then []
    else ToolContents(ms[..|ms| - 1]) + if ms[|ms| - 1].role.Tool? then [ms[|ms| - 1].content] else []
  }

  function ToolOutputs(trace: seq<Chunk>): seq<string> {
    if trace == [] then []
    else ToolOutputs(trace[..|trace| - 1]) + if trace[|trace| - 1].ToolResult? then [trace[|trace| - 1].data] else []
  }

  function AppendAll(h: History, ms: seq<Message>, max: int): History {
    if ms == [] then h else Append(AppendAll(h, ms[..|ms| - 1], max), ms[|ms| - 1], max)
  }

  /** What a run stored and what it emitted agree, and its history is what storing makes of the old one. */
  predicate Consistent(r: Run, h: History, max: int) {
    && r.history == AppendAll(h, r.appended, max)
    && ToolContents(r.appended) == ToolOutputs(r.trace)
    && UserCount(r.appended) <= 1
    && (r.iteration == 0 ==> UserCount(r.appended) == 0)
  }

  lemma {:induction false} ToolOutputsAppend(a: seq<Chunk>, b: seq<Chunk>)
    ensures ToolOutputs(a + b) == ToolOutputs(a) + ToolOutputs(b)
    decreases |b|
  {
    if b == [] {
      assert a + b == a;
    } else {
      assert (a + b)[..|a + b| - 1] == a + b[..|b| - 1];
      ToolOutputsAppend(a, b[..|b| - 1]);
    }
  }

  lemma {:induction false} NoToolOutputs(b: seq<Chunk>)
    requires forall c | c in b :: !c.ToolResult?
    ensures ToolOutputs(b) == []
  {
    if b != [] {
      NoToolOutputs(b[..|b| - 1]);
    }
  }

  lemma QuietTrace(a: seq<Chunk>, b: seq<Chunk>)
    requires forall c | c in b :: !c.ToolResult?
    ensures ToolOutputs(a + b) == ToolOutputs(a)
  {
    ToolOutputsAppend(a, b);
    NoToolOutputs(b);
  }

  lemma {:induction false} RunToolsConsistent(w: World, max: int, r: Run, calls: seq<ToolCall>, h: History)
    requires Consistent(r, h, max) && r.iteration > 0
    ensures Consistent(RunTools(w, max, r, calls), h, max)
    decreases |calls|
  {
    if calls != [] {
      var result := w.tool(r.executions, calls[0]);
      var emitted := r.Emit(ToolResult(result));
      assert emitted.trace[..|emitted.trace| - 1] == r.trace;
      RunToolsConsistent(w, max, RunTool(w, max, r, calls[0]), calls[1..], h);
    }
  }

  lemma EndConsistent(r: Run, how: Status, error: string, h: History, max: int)
    requires Consistent(r, h, max)
    ensures Consistent(r.End(how, error), h, max)
  {
    QuietTrace(r.trace, (if error != "" then [Error(error)] else []) + [Done("[DONE]")]);
    assert r.trace + ((if error != "" then [Error(error)] else []) + [Done("[DONE]")]) == r.End(how, error).trace;
  }

  lemma LookConsistent(r: Run, h: History, max: int)
    requires Consistent(r, h, max)
    ensures Consistent(Look(r), h, max) && Consistent(Look(r).(status := CANCELED), h, max)
  {
  }

  lemma StoreConsistent(r: Run, m: Message, max: int, h: History)
    requires Consistent(r, h, max) && r.iteration > 0 && !m.role.Tool?
    requires m.role.User? ==> UserCount(r.appended) == 0
    ensures Consistent(r.Store(m, max), h, max)
  {
    assert ToolContents(r.appended) + [] == ToolContents(r.appended);
  }

  lemma ExecuteToolsConsistent(w: World, max: int, r: Run, calls: seq<ToolCall>, reasoning: string, h: History)
    requires Consistent(r, h, max) && r.iteration > 0
    ensures Consistent(ExecuteTools(w, max, r, calls, reasoning), h, max)
  {
    var running := r.(status := EXECUTING_TOOLS);
    StoreConsistent(running, CallMessage(calls, reasoning), max, h);
    RunToolsConsistent(w, max, running.Store(CallMessage(calls, reasoning), max), calls, h);
  }

  lemma AfterCallConsistent(w: World, max: int, message: string, r: Run, result: LlmResult, h: History)
    requires Consistent(r, h, max) && r.iteration > 0
    requires r.iteration == 1 ==> UserCount(r.appended) == 0
    ensures Consistent(AfterCall(w, max, message, r, result).run, h, max)
  {
    hide Consistent, ExecuteTools;
    if r.iteration == 1 && message != "" {
      StoreConsistent(r, UserMessage(message), max, h);
    }
    var stored := if r.iteration == 1 && message != "" then r.Store(UserMessage(message), max) else r;
    if result.calls != [] {
      ExecuteToolsConsistent(w, max, stored, result.calls, result.reasoning, h);
      LookConsistent(ExecuteTools(w, max, stored, result.calls, result.reasoning), h, max);
    } else {
      if result.content != "" {
        StoreConsistent(stored, AssistantMessage(result.content), max, h);
      }
      var answered := if result.content != "" then stored.Store(AssistantMessage(result.content), max) else stored;
      LookConsistent(answered, h, max);
      EndConsistent(Look(answered), DONE, "", h, max);
    }
  }

  lemma TurnConsistent(w: World, max: int, message: string, r: Run, h: History)
    requires Consistent(r, h, max)
    ensures Consistent(TakeTurn(w, max, message, r).run, h, max)
  {
    if !w.canceled(r.looks) {
      var (called, outcome) := CallModel(w, Look(r), message);
      QuietTrace(r.trace, AsChunks(outcome.streamed));
      match outcome
      case Threw(_, what) =>
        EndConsistent(called, ERROR, Failure(what), h, max);
      case Returned(_, result) =>
        EndConsistent(Look(called), ERROR, CallError(result.error), h, max);
        AfterCallConsistent(w, max, message, Look(called), result, h);
    }
  }

  lemma {:induction false} LoopConsistent(w: World, max: int, message: string, r: Run, h: History)
    requires Consistent(r, h, max)
    ensures Consistent(Loop(w, max, message, r), h, max)
    decreases MAX_ITERATIONS - r.iteration
  {
    if r.iteration >= MAX_ITERATIONS {
      EndConsistent(r, ERROR, "Max iterations reached", h, max);
    } else {
      TurnFrame(w, max, message, r);
      TurnConsistent(w, max, message, r, h);
      var t := TakeTurn(w, max, message, r);
      if t.More? {
        LoopConsistent(w, max, message, t.run, h);
      }
    }
  }

  /**
   The tool results a run emitted are, one for one and in order, the tool messages it stored; it
   stored its user message at most once; and the history it leaves is what appending its messages makes.
   */
  lemma StoredMatchesEmitted(w: World, max: int, message: string, h: History)
    ensures var end := RunAgent(w, max, message, h);
            && ToolOutputs(end.trace) == ToolContents(end.appended)
            && UserCount(end.appended) <= 1
            && end.history == AppendAll(h, end.appended, max)
  {
    LoopConsistent(w, max, message, Begin(h), h);
  }
}
