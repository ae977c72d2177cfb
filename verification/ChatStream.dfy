/**
 From an agent's run to the client: each emitted event becomes a formatted message in a chunk, the
 DONE event also ends the stream and asks for the close, and the write path carries the bytes.
 */
module ChatStream {
  import opened Text
  import opened Agent
  import opened Framing
  import opened WritePath
  import opened Dialogue
  import C = Conversation
  import Reactor

  function EventName(c: Agent.Chunk): string {
    match c
    case Content(_) => "content"
    case Reasoning(_) => "reasoning"
    case ToolResult(_) => "tool_result"
    case Error(_) => "error"
    case Done(_) => "done"
  }

  function ToMessage(c: Agent.Chunk): Message {
    Message(c.data, EventName(c), "")
  }

  function ToMessages(trace: seq<Agent.Chunk>): seq<Message> {
    seq(|trace|, i requires 0 <= i < |trace| => ToMessage(trace[i]))
  }

  /** What the client should see of an event: its type, and its data up to one trailing LF. */
  function Seen(c: Agent.Chunk): Event {
    match c
    case Content(text) => Event("content", DropLf(text))
    case Reasoning(thought) => Event("reasoning", DropLf(thought))
    case ToolResult(output) => Event("tool_result", DropLf(output))
    case Error(reason) => Event("error", DropLf(reason))
    case Done(end) => Event("done", DropLf(end))
  }

  function SeenAll(trace: seq<Agent.Chunk>): seq<Event> {
    seq(|trace|, i requires 0 <= i < |trace| => Seen(trace[i]))
  }

  function ActsOf(c: Agent.Chunk): seq<Act> {
    [Send(Framing.Chunk(ToMessage(c).Format()))] + if c.Done? then [Send(CHUNK_END), Close] else []
  }

  function Acts(trace: seq<Agent.Chunk>): seq<Act> {
    if trace == [] then [] else ActsOf(trace[0]) + Acts(trace[1..])
  }

  // ---------- The bytes of a trace ----------

  /** A trace with one DONE, at its end. */
  predicate EndsOnce(trace: seq<Agent.Chunk>) {
    trace != [] && forall i | 0 <= i < |trace| :: trace[i].Done? <==> i == |trace| - 1
  }

  lemma FormatIsNotEmpty(m: Message)
    ensures m.Format() != "" && Framing.Chunk(m.Format()) != ""
  {
  }

  lemma ChunksCons(c: Agent.Chunk, rest: seq<Agent.Chunk>)
    ensures Chunks(Formats(ToMessages([c] + rest))) ==
            Framing.Chunk(ToMessage(c).Format()) + Chunks(Formats(ToMessages(rest)))
  {
    hide Framing.Chunk, FormatSse;
    var all := ToMessages([c] + rest);
    assert Formats(all)[0] == ToMessage(c).Format();
    assert Formats(all)[1..] == Formats(ToMessages(rest));
  }

  lemma LastActs(data: string)
    requires data != ""
    ensures var acts := [Send(data), Send(CHUNK_END), Close];
            ClosesLast(acts) && SentBytes(acts) == data + CHUNK_END
  {
    assert [Send(data), Send(CHUNK_END), Close] == [Send(data)] + ([Send(CHUNK_END)] + [Close]);
    SendCons(data, [Send(CHUNK_END)] + [Close]);
    SendCons(CHUNK_END, [Close]);
    assert CHUNK_END + "" == CHUNK_END;
  }

  lemma ActsOfLast(c: Agent.Chunk)
    requires c.Done?
    ensures Acts([c]) == [Send(Framing.Chunk(ToMessage(c).Format())), Send(CHUNK_END), Close]
  {
    assert [c][1..] == [];
    assert Acts([c]) == ActsOf(c) + [];
  }

  lemma FramesOfLast(c: Agent.Chunk)
    ensures Frames(ToMessages([c])) == Framing.Chunk(ToMessage(c).Format()) + CHUNK_END
  {
    ChunksCons(c, []);
    assert [c] + [] == [c];
    assert ToMessages([]) == [] && Formats([]) == [];
    var frame := Framing.Chunk(ToMessage(c).Format());
    assert frame + "" == frame;
  }

  lemma {:induction false} ActsAreFrames(trace: seq<Agent.Chunk>)
    requires EndsOnce(trace)
    ensures ClosesLast(Acts(trace)) && SentBytes(Acts(trace)) == Frames(ToMessages(trace))
    decreases |trace|
  {
    hide Framing.Chunk, FormatSse;
    var c, rest := trace[0], trace[1..];
    var frame := Framing.Chunk(ToMessage(c).Format());
    FormatIsNotEmpty(ToMessage(c));
    assert trace == [c] + rest;
    if rest == [] {
      assert trace == [c];
      ActsOfLast(c);
      FramesOfLast(c);
      LastActs(frame);
    } else {
      ChunksCons(c, rest);
      ActsAreFrames(rest);
      assert Acts(trace) == [Send(frame)] + Acts(rest);
      SendCons(frame, Acts(rest));
      Associative(frame, Chunks(Formats(ToMessages(rest))), CHUNK_END);
    }
  }

  lemma TraceEndsOnce(trace: seq<Agent.Chunk>, how: Status)
    requires EndsAs(trace, how) && (how.DONE? || how.ERROR?)
    ensures EndsOnce(trace)
  {
    var n := if how.DONE? then |trace| - 1 else |trace| - 2;
    forall i | 0 <= i < n
      ensures !trace[i].Done?
    {
      assert trace[i] in trace[..n];
    }
  }

  predicate CrFree(trace: seq<Agent.Chunk>) {
    forall i | 0 <= i < |trace| :: '\r' !in trace[i].data
  }

  lemma EventIsClean(c: Agent.Chunk)
    ensures ToMessage(c).WellFormed() && ToMessage(c).Meaning() == Seen(c)
  {
    var name := EventName(c);
    assert name[0] in name;
    assert forall k | 0 <= k < |name| :: 'a' <= name[k] <= 'z' || name[k] == '_';
  }

  lemma FramesOfTrace(trace: seq<Agent.Chunk>, rest: string)
    requires CrFree(trace)
    ensures var body := Dechunk(Frames(ToMessages(trace)) + rest);
            && body.Complete? && body.rest == rest
            && Decode(body.content) == SeenAll(trace)
  {
    var messages := ToMessages(trace);
    forall i | 0 <= i < |trace|
      ensures messages[i].WellFormed() && '\r' !in messages[i].data && messages[i].Meaning() == Seen(trace[i])
    {
      EventIsClean(trace[i]);
    }
    FramesDecode(messages, rest);
    assert Meanings(messages) == SeenAll(trace);
  }

  predicate Unfinished(trace: seq<Agent.Chunk>) {
    forall i | 0 <= i < |trace| :: !trace[i].Done?
  }

  lemma {:induction false} OpenActsAreChunks(trace: seq<Agent.Chunk>)
    requires Unfinished(trace)
    ensures ClosesLast(Acts(trace)) && SentBytes(Acts(trace)) == Chunks(Formats(ToMessages(trace)))
    ensures forall a | a in Acts(trace) :: a.Send?
    decreases |trace|
  {
    if trace != [] {
      var c, rest := trace[0], trace[1..];
      FormatIsNotEmpty(ToMessage(c));
      assert ToMessages(trace) == [ToMessage(c)] + ToMessages(rest);
      assert Formats(ToMessages(trace))[1..] == Formats(ToMessages(rest));
      OpenActsAreChunks(rest);
      assert Acts(trace) == [Send(Framing.Chunk(ToMessage(c).Format()))] + Acts(rest);
      assert Acts(trace)[1..] == Acts(rest);
    }
  }

  /** While no DONE was sent, what was accepted is no complete body, but its events are all there. */
  lemma UnfinishedStream(trace: seq<Agent.Chunk>, w: Writer, ops: seq<Op>)
    requires Unfinished(trace) && Asked(ops) == Acts(trace)
    requires WritePath.Inv(w) && w.open && !w.closeRequested && Legal(w, ops) && Unharmed(WritePath.Run(w, ops))
    ensures Accepted(w, ops) + CHUNK_END == Frames(ToMessages(trace)) && Dechunk(Accepted(w, ops)).Incomplete?
  {
    OpenActsAreChunks(trace);
    EverythingIsAccepted(w, ops);
    var payloads := Formats(ToMessages(trace));
    TruncationIsDetected(payloads, |Chunks(payloads)|);
    assert (Chunks(payloads) + CHUNK_END)[..|Chunks(payloads)|] == Chunks(payloads);
  }

  /** The client decodes these events from these bytes, and can tell whether the stream is whole. */
  predicate ClientSees(bytes: string, events: seq<Event>, whole: bool) {
    var body := Dechunk(if whole then bytes else bytes + CHUNK_END);
    && body.Complete? && body.rest == "" && Decode(body.content) == events
    && (Dechunk(bytes).Complete? <==> whole)
  }

  lemma CrIsLost(trace: seq<Agent.Chunk>, content: string)
    requires !CrFree(trace)
    ensures Decode(content) != SeenAll(trace)
  {
    DecodedDataIsCrFree(START, content);
    var i :| 0 <= i < |trace| && '\r' in trace[i].data;
    assert '\r' in SeenAll(trace)[i].data;
    assert SeenAll(trace)[i] in SeenAll(trace);
  }

  lemma FramesAreSeen(trace: seq<Agent.Chunk>, bytes: string, whole: bool)
    requires Frames(ToMessages(trace)) == if whole then bytes else bytes + CHUNK_END
    requires !whole ==> Dechunk(bytes).Incomplete?
    ensures ClientSees(bytes, SeenAll(trace), whole) <==> CrFree(trace)
  {
    assert Frames(ToMessages(trace)) + "" == Frames(ToMessages(trace));
    if CrFree(trace) {
      FramesOfTrace(trace, "");
    } else {
      ChunksDecode(Formats(ToMessages(trace)), "");
      CrIsLost(trace, Concat(Formats(ToMessages(trace))));
    }
  }

  /** A connection that was asked for the acts of these events, all of a run's or the first of them. */
  lemma AskedIsSeen(trace: seq<Agent.Chunk>, sent: seq<Agent.Chunk>, w: Writer, ops: seq<Op>)
    requires EndsOnce(trace) && sent <= trace && Asked(ops) == Acts(sent)
    requires WritePath.Inv(w) && w.open && !w.closeRequested && Legal(w, ops) && Unharmed(WritePath.Run(w, ops))
    ensures ClientSees(Accepted(w, ops), SeenAll(sent), sent == trace) <==> CrFree(sent)
  {
    if sent == trace {
      ActsAreFrames(trace);
      EverythingIsAccepted(w, ops);
    } else {
      UnfinishedStream(sent, w, ops);
    }
    FramesAreSeen(sent, Accepted(w, ops), sent == trace);
  }

  // ---------- From a run to its client ----------

  /**
   The chat stream, end to end. Whatever the model, the tools and the kernel do, if a run ends DONE
   or ERROR and its connection was not closed by a failed send or a full buffer, then the body bytes
   the connection accepted decode, as chunks and then as an event stream, to exactly the events the
   run emitted, in order, with the last chunk at the end, exactly when no event contains a CR; and the
   connection has closed gracefully with all of the bytes on the wire, or still waits to send the rest.
   */
  lemma ChatReachesTheClient(
    world: World, max: int, message: string, h: Sessions.History, w: Writer, ops: seq<Op>)
    requires var run := RunAgent(world, max, message, h);
             (run.status.DONE? || run.status.ERROR?) && Asked(ops) == Acts(run.trace)
    requires WritePath.Inv(w) && w.open && !w.closeRequested && Legal(w, ops) && Unharmed(WritePath.Run(w, ops))
    ensures var trace := RunAgent(world, max, message, h).trace;
            ClientSees(Accepted(w, ops), SeenAll(trace), true) <==> CrFree(trace)
    ensures var end := WritePath.Run(w, ops);
            ClosesInTime(end) && end.wire + end.buffer == w.accepted + Accepted(w, ops)
  {
    var run := RunAgent(world, max, message, h);
    TraceGrammar(world, max, message, h);
    TraceEndsOnce(run.trace, run.status);
    AskedIsSeen(run.trace, run.trace, w, ops);
    NothingLostOrReordered(w, ops);
    AsksForClose(run.trace);
    AskedToCloseCloses(w, ops);
  }

  lemma {:induction false} AsksForClose(trace: seq<Agent.Chunk>)
    requires EndsOnce(trace)
    ensures Close in Acts(trace)
    decreases |trace|
  {
    hide Framing.Chunk, FormatSse;
    if trace[0].Done? {
      assert ActsOf(trace[0])[2] == Close;
    } else {
      AsksForClose(trace[1..]);
    }
  }

  // ---------- The answer as its client reads it ----------

  /** The data of the events of this type. */
  function DataOf(events: seq<Event>, kind: string): seq<string> {
    if events == [] then []
    else
      var last := events[|events| - 1];
      DataOf(events[..|events| - 1], kind) + if last.kind == kind then [last.data] else []
  }

  function Texts(pieces: seq<Streamed>): seq<string> {
    if pieces == [] then []
    else
      var last := pieces[|pieces| - 1];
      Texts(pieces[..|pieces| - 1]) + if last.Text? then [last.data] else []
  }

  function Thoughts(pieces: seq<Streamed>): seq<string> {
    if pieces == [] then []
    else
      var last := pieces[|pieces| - 1];
      Thoughts(pieces[..|pieces| - 1]) + if last.Thought? then [last.data] else []
  }

  function DropLfs(data: seq<string>): (r: seq<string>)
    ensures |r| == |data|
  {
    seq(|data|, i requires 0 <= i < |data| => DropLf(data[i]))
  }

  lemma DropLfsAppend(data: seq<string>, more: seq<string>)
    ensures DropLfs(data + more) == DropLfs(data) + DropLfs(more)
  {
  }

  lemma DataOfOne(trace: seq<Agent.Chunk>, c: Agent.Chunk, kind: string)
    ensures DataOf(SeenAll(trace + [c]), kind) ==
            DataOf(SeenAll(trace), kind) + if Seen(c).kind == kind then [Seen(c).data] else []
  {
    assert SeenAll(trace + [c])[..|trace|] == SeenAll(trace);
  }

  lemma NamesDiffer(c: Agent.Chunk)
    ensures (Seen(c).kind == "content" <==> c.Content?) && (Seen(c).kind == "reasoning" <==> c.Reasoning?)
    ensures Seen(c).data == DropLf(c.data)
  {
  }

  lemma {:induction false} SpokenIsRead(trace: seq<Agent.Chunk>, kind: string)
    requires kind == "content" || kind == "reasoning"
    ensures DataOf(SeenAll(trace), kind) == DataOf(SeenAll(Spoken(trace)), kind)
    decreases |trace|
  {
    hide DataOf, SeenAll, Seen, DropLf;
    if trace != [] {
      var init, last := trace[..|trace| - 1], trace[|trace| - 1];
      SpokenIsRead(init, kind);
      assert trace == init + [last];
      DataOfOne(init, last, kind);
      NamesDiffer(last);
      if last.Content? || last.Reasoning? {
        DataOfOne(Spoken(init), last, kind);
      } else {
        assert Spoken(init) + [] == Spoken(init);
      }
    }
  }

  lemma {:induction false} PiecesAreRead(events: seq<Agent.Chunk>, pieces: seq<Streamed>)
    requires Says(events, pieces)
    ensures DataOf(SeenAll(events), "content") == DropLfs(Texts(pieces))
    ensures DataOf(SeenAll(events), "reasoning") == DropLfs(Thoughts(pieces))
    decreases |pieces|
  {
    hide DataOf, SeenAll, Seen, DropLf;
    if pieces == [] {
      NothingIsRead(events);
    } else {
      var n := |pieces| - 1;
      PiecesAreRead(events[..n], pieces[..n]);
      assert events == events[..n] + [events[n]];
      DataOfOne(events[..n], events[n], "content");
      DataOfOne(events[..n], events[n], "reasoning");
      NamesDiffer(events[n]);
      DropLfsAppend(Texts(pieces[..n]), if pieces[n].Text? then [pieces[n].data] else []);
      DropLfsAppend(Thoughts(pieces[..n]), if pieces[n].Thought? then [pieces[n].data] else []);
    }
  }

  lemma NothingIsRead(events: seq<Agent.Chunk>)
    requires events == []
    ensures DataOf(SeenAll(events), "content") == [] && DataOf(SeenAll(events), "reasoning") == []
  {
  }

  lemma {:induction false} DroppedLength(data: seq<string>)
    ensures |Concat(DropLfs(data))| <= |Concat(data)|
    ensures |Concat(DropLfs(data))| == |Concat(data)| ==> DropLfs(data) == data
    decreases |data|
  {
    if data != [] {
      DroppedLength(data[1..]);
      assert DropLfs(data)[1..] == DropLfs(data[1..]);
    }
  }

  /**
   What the client of a chat that was not cancelled reads under the type "content" are the texts that the
   model streamed in all its calls, in order, and under "reasoning" its thoughts, each up to one trailing LF.
   So the client has the model's answer exactly when no piece of it ends with an LF.
   */
  lemma AnswerReachesTheClient(s: C.Setting, w: Writer, ops: seq<Op>)
    requires var run := RunAgent(s.world, s.max, s.message, s.history);
             (run.status.DONE? || run.status.ERROR?) && Asked(ops) == Acts(run.trace) && CrFree(run.trace)
    requires WritePath.Inv(w) && w.open && !w.closeRequested && Legal(w, ops) && Unharmed(WritePath.Run(w, ops))
    ensures var pieces := Pieces(s, |RunAgent(s.world, s.max, s.message, s.history).prompts|);
            var body := Dechunk(Accepted(w, ops));
            && body.Complete?
            && DataOf(Decode(body.content), "content") == DropLfs(Texts(pieces))
            && DataOf(Decode(body.content), "reasoning") == DropLfs(Thoughts(pieces))
            && (Concat(DataOf(Decode(body.content), "content")) == Concat(Texts(pieces))
                <==> forall d | d in Texts(pieces) :: d == "" || d[|d| - 1] != '\n')
  {
    hide RunAgent, Acts, Says, Spoken, Pieces, SeenAll, DataOf, Texts, Thoughts;
    var run := RunAgent(s.world, s.max, s.message, s.history);
    ChatReachesTheClient(s.world, s.max, s.message, s.history, w, ops);
    WhatIsStreamedIsSaid(s);
    SpokenIsRead(run.trace, "content");
    SpokenIsRead(run.trace, "reasoning");
    PiecesAreRead(Spoken(run.trace), Pieces(s, |run.prompts|));
    var texts := Texts(Pieces(s, |run.prompts|));
    DroppedLength(texts);
    assert DropLfs(texts) == texts <==> forall i | 0 <= i < |texts| :: DropLf(texts[i]) == texts[i];
    assert forall i | 0 <= i < |texts| :: texts[i] in texts;
  }

  /** A cancelled run never leaves a stream that a client could take for a complete one. */
  lemma CanceledStreamIsIncomplete(
    world: World, max: int, message: string, h: Sessions.History, w: Writer, ops: seq<Op>)
    requires var run := RunAgent(world, max, message, h); run.status.CANCELED? && Asked(ops) == Acts(run.trace)
    requires WritePath.Inv(w) && w.open && !w.closeRequested && Legal(w, ops) && Unharmed(WritePath.Run(w, ops))
    ensures Dechunk(Accepted(w, ops)).Incomplete?
  {
    var run := RunAgent(world, max, message, h);
    TraceGrammar(world, max, message, h);
    assert forall i | 0 <= i < |run.trace| :: run.trace[i] in run.trace;
    UnfinishedStream(run.trace, w, ops);
  }

  // ---------- Through the completion queue ----------

  /** The events of one run among the completions: `emitted` tells which outputs are its own. */
  function Delivered(items: seq<Reactor.Item>, emitted: nat -> Option<Agent.Chunk>): seq<Agent.Chunk> {
    if items == [] then []
    else
      var last := items[|items| - 1];
      Delivered(items[..|items| - 1], emitted)
      + if last.Output? && emitted(last.tag).Some? then [emitted(last.tag).value] else []
  }

  lemma {:induction false} DeliveredPrefix(a: seq<Reactor.Item>, b: seq<Reactor.Item>,
                                           emitted: nat -> Option<Agent.Chunk>)
    requires a <= b
    ensures Delivered(a, emitted) <= Delivered(b, emitted)
    decreases |b|
  {
    if a != b {
      DeliveredPrefix(a, b[..|b| - 1], emitted);
    }
  }

  /**
   Across the threads: a worker posts the events of a run, workers and reactor interleave in any way,
   and the connection is asked for what the executed completions ask. Then at every moment the client
   has been sent a prefix of the run's events, in order, which it can tell from the whole; and when
   the reactor goes back to waiting it has been sent every event that was posted.
   */
  lemma EventsCrossTheThreads(
    n: nat, steps: seq<Reactor.Step>, emitted: nat -> Option<Agent.Chunk>,
    trace: seq<Agent.Chunk>, w: Writer, ops: seq<Op>)
    requires Reactor.Legal(Reactor.Start(n), steps)
    requires var s := Reactor.Exec(Reactor.Start(n), steps);
             Delivered(s.posted, emitted) <= trace && Asked(ops) == Acts(Delivered(s.executed, emitted))
    requires EndsOnce(trace)
    requires WritePath.Inv(w) && w.open && !w.closeRequested && Legal(w, ops) && Unharmed(WritePath.Run(w, ops))
    ensures var s := Reactor.Exec(Reactor.Start(n), steps);
            var sent := Delivered(s.executed, emitted);
            && sent <= trace && (Reactor.Enabled(s, Reactor.DrainDone) ==> sent == Delivered(s.posted, emitted))
            && (ClientSees(Accepted(w, ops), SeenAll(sent), sent == trace) <==> CrFree(sent))
  {
    var s := Reactor.Exec(Reactor.Start(n), steps);
    Reactor.CompletionsRunInPostingOrder(n, steps);
    DeliveredPrefix(s.executed, s.posted, emitted);
    AskedIsSeen(trace, Delivered(s.executed, emitted), w, ops);
  }
}
