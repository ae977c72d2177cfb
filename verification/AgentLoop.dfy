/** The agent as an object: its loop over a session it shares is exactly the run in `Agent`. */
module AgentLoops {
  import opened Sessions
  import opened SessionManagers
  import opened Agent

  class AgentLoop {
    const session: SessionManager
    var state: Status
    var iteration: nat
    var terminalSent: bool
    // What was posted to the reactor, in order.
    var posted: seq<Chunk>
    // How often the cancel flag was read and a tool executed.
    var looks: nat
    var executions: nat
    // What was stored, and what was sent to the model.
    ghost var appended: seq<Message>
    ghost var prompts: seq<History>

    constructor (session: SessionManager)
      ensures this.session == session
    {
      this.session := session;
      state, iteration, posted, terminalSent := IDLE, 0, [], false;
      looks, executions, appended, prompts := 0, 0, [], [];
    }

    /** The run so far, on session `id`. */
    ghost function State(id: string): Run
      reads this, session
    {
      Run(state, iteration, looks, executions, session.GetHistory(id), appended, posted, prompts)
    }

    method IsCanceled(w: World) returns (canceled: bool)
      modifies this`looks
      ensures canceled == w.canceled(old(looks)) && looks == old(looks) + 1
    {
      canceled := w.canceled(looks);
      looks := looks + 1;
    }

    method Store(id: string, m: Message)
      modifies this`appended, session
      ensures State(id) == old(State(id)).Store(m, session.maxHistory)
      ensures session.maxHistory == old(session.maxHistory)
      ensures forall other | other != id :: session.GetHistory(other) == old(session.GetHistory(other))
    {
      var now: nat := *;
      session.AppendMessage(id, m, now);
      appended := appended + [m];
    }

    method EmitTerminal(how: Status, error: string)
      requires !terminalSent
      modifies this`terminalSent, this`posted, this`state
      ensures terminalSent && state == how
      ensures posted == old(posted) + (if error != "" then [Error(error)] else []) + [Done("[DONE]")]
    {
      state := how;
      terminalSent := true;
      if error != "" {
        posted := posted + [Error(error)];
      }
      posted := posted + [Done("[DONE]")];
    }

    method ExecuteSingle(w: World, id: string, call: ToolCall)
      modifies this`posted, this`executions, this`appended, session
      ensures State(id) == RunTool(w, session.maxHistory, old(State(id)), call)
      ensures session.maxHistory == old(session.maxHistory)
      ensures forall other | other != id :: session.GetHistory(other) == old(session.GetHistory(other))
    {
      var result := w.tool(executions, call);
      posted := posted + [ToolResult(result)];
      Store(id, ToolMessage(call.id, result));
      executions := executions + 1;
    }

    /** Stores the call, then runs its tools one after the other. */
    method ExecuteTools(w: World, id: string, calls: seq<ToolCall>, reasoning: string)
      modifies this, session
      ensures State(id) == Agent.ExecuteTools(w, session.maxHistory, old(State(id)), calls, reasoning)
      ensures session.maxHistory == old(session.maxHistory) && terminalSent == old(terminalSent)
      ensures forall other | other != id :: session.GetHistory(other) == old(session.GetHistory(other))
    {
      state := EXECUTING_TOOLS;
      Store(id, CallMessage(calls, reasoning));
      ghost var max, goal := session.maxHistory, RunTools(w, session.maxHistory, State(id), calls);
      assert calls[0..] == calls;
      for i := 0 to |calls|
        invariant RunTools(w, max, State(id), calls[i..]) == goal
        invariant session.maxHistory == max && terminalSent == old(terminalSent)
        invariant forall other | other != id :: session.GetHistory(other) == old(session.GetHistory(other))
      {
        assert calls[i..][1..] == calls[i + 1..];
        ExecuteSingle(w, id, calls[i]);
      }
    }

    /** The model call of the next iteration. */
    method CallLlm(w: World, id: string, message: string) returns (outcome: Outcome)
      modifies this`state, this`iteration, this`posted, this`prompts
      ensures (State(id), outcome) == CallModel(w, old(State(id)), message)
    {
      state := CALLING_LLM;
      iteration := iteration + 1;
      var current := if iteration == 1 then message else "";
      outcome := w.llm(iteration, session.GetHistory(id), current);
      prompts := prompts + [Prompt(session.GetHistory(id), current)];
      posted := posted + AsChunks(outcome.streamed);
    }

    /** What follows a successful call; `more` tells whether the loop goes on. */
    method HandleResult(w: World, id: string, message: string, result: LlmResult) returns (more: bool)
      requires !terminalSent
      modifies this, session
      ensures var t := AfterCall(w, session.maxHistory, message, old(State(id)), result);
              more == t.More? && State(id) == t.run
      ensures session.maxHistory == old(session.maxHistory) && (more ==> !terminalSent)
      ensures forall other | other != id :: session.GetHistory(other) == old(session.GetHistory(other))
    {
      hide Append, Agent.ExecuteTools;
      if iteration == 1 && message != "" {
        Store(id, UserMessage(message));
      }
      if result.calls != [] {
        ExecuteTools(w, id, result.calls, result.reasoning);
        var canceled := IsCanceled(w);
        if canceled {
          state := CANCELED;
        }
        return !canceled;
      }
      if result.content != "" {
        Store(id, AssistantMessage(result.content));
      }
      var canceled := IsCanceled(w);
      if canceled {
        state := CANCELED;
      } else {
        EmitTerminal(DONE, "");
      }
      more := false;
    }

    /** What follows a model call, however it ended. */
    method HandleOutcome(w: World, id: string, message: string, outcome: Outcome) returns (more: bool)
      requires !terminalSent
      modifies this, session
      ensures var t := AfterModel(w, session.maxHistory, message, old(State(id)), outcome);
              more == t.More? && State(id) == t.run
      ensures session.maxHistory == old(session.maxHistory) && (more ==> !terminalSent)
      ensures forall other | other != id :: session.GetHistory(other) == old(session.GetHistory(other))
    {
      hide Failure, CallError, AfterCall;
      more := false;
      match outcome
      case Threw(_, what) =>
        EmitTerminal(ERROR, Failure(what));
      case Returned(_, result) =>
        var canceled := IsCanceled(w);
        if canceled || result.canceled {
          state := CANCELED;
        } else if !result.success {
          EmitTerminal(ERROR, CallError(result.error));
        } else {
          more := HandleResult(w, id, message, result);
        }
    }

    /** One turn of the loop. */
    method Turn(w: World, id: string, message: string) returns (more: bool)
      requires !terminalSent
      modifies this, session
      ensures var t := TakeTurn(w, session.maxHistory, message, old(State(id)));
              more == t.More? && State(id) == t.run
      ensures session.maxHistory == old(session.maxHistory) && (more ==> !terminalSent)
      ensures forall other | other != id :: session.GetHistory(other) == old(session.GetHistory(other))
    {
      var canceled := IsCanceled(w);
      if canceled {
        state := CANCELED;
        return false;
      }
      var outcome := CallLlm(w, id, message);
      more := HandleOutcome(w, id, message, outcome);
    }

    predicate ShouldContinue()
      reads this
    {
      iteration < MAX_ITERATIONS && !state.Final()
    }

    method ExecuteLoop(w: World, id: string, message: string)
      requires !terminalSent && iteration == 0 && !state.Final()
      modifies this, session
      ensures State(id) == Loop(w, session.maxHistory, message, old(State(id)))
      ensures session.maxHistory == old(session.maxHistory)
      ensures forall other | other != id :: session.GetHistory(other) == old(session.GetHistory(other))
    {
      ghost var max, goal := session.maxHistory, Loop(w, session.maxHistory, message, State(id));
      while ShouldContinue()
        invariant !terminalSent && !state.Final() && session.maxHistory == max
        invariant Loop(w, max, message, State(id)) == goal
        invariant forall other | other != id :: session.GetHistory(other) == old(session.GetHistory(other))
        decreases MAX_ITERATIONS - iteration
      {
        TurnFrame(w, max, message, State(id));
        var more := Turn(w, id, message);
        if !more {
          return;
        }
      }
      EmitTerminal(ERROR, "Max iterations reached");
    }

    /** A fresh agent's run on a session is `RunAgent` on the session's history, and touches no other session. */
    method RunOn(w: World, id: string, message: string)
      requires !terminalSent && posted == [] && looks == 0 && executions == 0 && appended == [] && prompts == []
      modifies this, session
      ensures State(id) == RunAgent(w, session.maxHistory, message, old(session.GetHistory(id)))
      ensures session.maxHistory == old(session.maxHistory)
      ensures forall other | other != id :: session.GetHistory(other) == old(session.GetHistory(other))
    {
      state := IDLE;
      iteration := 0;
      ExecuteLoop(w, id, message);
    }
  }
}
