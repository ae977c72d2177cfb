/**
 A server-sent event stream to one client: a bounded queue that timers push into and that the reactor
 empties into chunks. `Do` says what each call does; the handler object is proved to do just that.
 */
module EventStreams {
  import opened Text
  import opened Framing
  import opened ProtocolHandlers

  const MAX_PENDING_EVENTS: nat := 64

  /**
   `queued` is everything that was ever put on the queue, `sent` the messages that went out, `wire` the
   bytes; `chats` counts the calls of the chat handler. Without one the connection is asked to close, after
   which it drops what it is given to send.
   */
  datatype Stream = Stream(
    chat: bool,
    head: string,
    handshakeSent: bool,
    closed: bool,
    heartbeat: bool,
    pendingChat: bool,
    chats: nat,
    closeRequested: bool,
    pending: seq<Message>,
    queued: seq<Message>,
    sent: seq<Message>,
    wire: string)
  {
    function Head(): string {
      if handshakeSent then head else ""
    }

    /** Without a chat handler the client is told so, and the stream is ended. */
    function Direct(): string {
      if closeRequested then Frames(Fallback()) else ""
    }

    /** The body bytes that the queue's messages became. */
    function Body(): string {
      Chunks(Formats(sent))
    }
  }

  function Fallback(): seq<Message> {
    [Message("chat handler not configured", "error", ""), Message("[DONE]", "done", "")]
  }

  /** A stream to be opened with this response head. */
  function Upgraded(chat: bool, head: string): Stream {
    Stream(chat, head, false, false, false, chat, 0, false, [], [], [], "")
  }

  /** `alive` tells whether the connection object still exists, `handler` whether there is a chat handler. */
  datatype Op =
    | Push(m: Message, alive: bool)
    | Process(alive: bool, handler: bool)
    | Heartbeat(beat: Message, alive: bool)
    | Shut

  function DoClose(s: Stream): Stream {
    if s.closed then s else s.(closed := true, heartbeat := false, pending := [])
  }

  predicate HasRoom(s: Stream) {
    !s.closed && |s.pending| < MAX_PENDING_EVENTS
  }

  function DoPush(s: Stream, m: Message): Stream {
    if HasRoom(s) then s.(pending := s.pending + [m], queued := s.queued + [m]) else s
  }

  function DoBegin(s: Stream): Stream {
    if s.handshakeSent then s
    else s.(handshakeSent := true, heartbeat := !s.chat, wire := s.wire + s.head)
  }

  function DoChat(s: Stream, handler: bool): Stream {
    if !s.pendingChat then s
    else if handler then s.(pendingChat := false, chats := s.chats + 1)
    else s.(pendingChat := false, closeRequested := true, wire := s.wire + Frames(Fallback()))
  }

  /** Takes the oldest pending message off the queue and hands it to the connection. */
  function DoSend(s: Stream): Stream
    requires s.pending != []
  {
    var m, rest := s.pending[0], s.pending[1..];
    if s.closeRequested then s.(pending := rest)
    else s.(pending := rest, sent := s.sent + [m], wire := s.wire + Chunk(m.Format()))
  }

  function DoFlush(s: Stream): Stream
    decreases |s.pending|
  {
    if s.pending == [] then s else DoFlush(DoSend(s))
  }

  /** Without a connection the head, or the first pending message, cannot be sent. */
  function DoProcess(s: Stream, alive: bool, handler: bool): (Stream, ProcessResult) {
    if s.closed then (s, Close)
    else if !s.handshakeSent && !alive then (s, Close)
    else
      var begun := DoChat(DoBegin(s), handler);
      if alive then (DoFlush(begun), NeedMore)
      else if begun.pending == [] then (begun, NeedMore)
      else (DoClose(begun), Close)
  }

  function DoHeartbeat(s: Stream, beat: Message, alive: bool): Stream {
    if s.closed then s
    else if !alive || !HasRoom(s) then DoClose(s)
    else DoPush(s, beat)
  }

  function Do(s: Stream, op: Op): Stream {
    match op
    case Push(m, _) => DoPush(s, m)
    case Process(alive, handler) => DoProcess(s, alive, handler).0
    case Heartbeat(beat, alive) => DoHeartbeat(s, beat, alive)
    case Shut => DoClose(s)
  }

  // ---------- What every call keeps ----------

  predicate Inv(s: Stream) {
    Queue(s) && s.wire == s.Head() + s.Direct() + s.Body()
  }

  predicate Queue(s: Stream) {
    && |s.pending| <= MAX_PENDING_EVENTS
    && (s.closed ==> s.pending == [] && !s.heartbeat) && (s.chat ==> !s.heartbeat)
    && s.sent <= s.queued && (!s.closed && !s.closeRequested ==> s.sent + s.pending == s.queued)
    && (s.closeRequested ==> s.sent == [])
    && (!s.handshakeSent ==> s.sent == [] && !s.closeRequested) && (s.handshakeSent ==> !s.pendingChat)
    && s.chats + (if s.pendingChat then 1 else 0) + (if s.closeRequested then 1 else 0) == (if s.chat then 1 else 0)
  }

  lemma SentGrows(sent: seq<Message>, m: Message)
    ensures Chunks(Formats(sent + [m])) == Chunks(Formats(sent)) + Chunk(m.Format())
  {
    assert Formats(sent + [m]) == Formats(sent) + [m.Format()];
    ChunksAppend(Formats(sent), m.Format());
  }

  lemma {:induction false} ChunksAppend(payloads: seq<string>, last: string)
    ensures Chunks(payloads + [last]) == Chunks(payloads) + Chunk(last)
  {
    if payloads == [] {
      assert [last][1..] == [];
      assert Chunk(last) + "" == Chunk(last);
    } else {
      assert (payloads + [last])[1..] == payloads[1..] + [last];
      ChunksAppend(payloads[1..], last);
      Associative(Chunk(payloads[0]), Chunks(payloads[1..]), Chunk(last));
    }
  }

  lemma WireGrows(s: Stream, next: Stream, frame: string)
    requires Inv(s) && s.handshakeSent && next.handshakeSent
    requires next.head == s.head && next.closeRequested == s.closeRequested
    requires next.Body() == s.Body() + frame && next.wire == s.wire + frame
    ensures next.wire == next.Head() + next.Direct() + next.Body()
  {
    Associative(s.Head() + s.Direct(), s.Body(), frame);
  }

  lemma SendKeeps(s: Stream)
    requires Inv(s) && !s.closed && s.handshakeSent && s.pending != []
    ensures Inv(DoSend(s))
  {
    if !s.closeRequested {
      var next, m := DoSend(s), s.pending[0];
      SentGrows(s.sent, m);
      WireGrows(s, next, Chunk(m.Format()));
      SendKeepsQueue(s, next);
    }
  }

  lemma SendKeepsQueue(s: Stream, next: Stream)
    requires Queue(s) && !s.closed && !s.closeRequested && s.handshakeSent && s.pending != []
    requires next == s.(pending := s.pending[1..], sent := s.sent + [s.pending[0]], wire := next.wire)
    ensures Queue(next)
  {
    assert s.sent + [s.pending[0]] + s.pending[1..] == s.sent + s.pending;
  }

  lemma {:induction false} FlushSendsAll(s: Stream)
    requires Inv(s) && !s.closed && s.handshakeSent
    ensures var f := DoFlush(s);
            && Inv(f) && !f.closed && f.pending == [] && f.closeRequested == s.closeRequested
            && f.queued == s.queued && f.sent == if s.closeRequested then [] else s.queued
    decreases |s.pending|
  {
    if s.pending == [] {
      assert s.sent + [] == s.sent;
    } else {
      SendKeeps(s);
      FlushSendsAll(DoSend(s));
    }
  }

  lemma BeginKeeps(s: Stream, handler: bool)
    requires Inv(s) && !s.closed
    ensures Inv(DoChat(DoBegin(s), handler))
  {
    hide Frames;
    if !s.handshakeSent {
      assert Formats([]) == [];
      assert s.wire == "";
      var direct := Frames(Fallback());
      assert "" + s.head == s.head + "" + "" && "" + s.head + direct == s.head + direct + "";
    }
  }

  lemma CloseKeeps(s: Stream)
    requires Inv(s)
    ensures Inv(DoClose(s))
  {
  }

  lemma PushKeeps(s: Stream, m: Message)
    requires Inv(s)
    ensures Inv(DoPush(s, m)) && s.queued <= DoPush(s, m).queued && s.sent == DoPush(s, m).sent
  {
    Associative(s.sent, s.pending, [m]);
  }

  lemma ProcessKeeps(s: Stream, alive: bool, handler: bool)
    requires Inv(s)
    ensures var next := DoProcess(s, alive, handler).0; Inv(next) && s.queued == next.queued && s.sent <= next.sent
  {
    if !s.closed {
      BeginKeeps(s, handler);
      if s.handshakeSent || alive {
        var begun := DoChat(DoBegin(s), handler);
        FlushSendsAll(begun);
        CloseKeeps(begun);
      }
    }
  }

  lemma OpKeeps(s: Stream, op: Op)
    requires Inv(s)
    ensures Inv(Do(s, op))
    ensures s.queued <= Do(s, op).queued && s.sent <= Do(s, op).sent
  {
    hide Inv, DoProcess;
    match op
    case Push(m, _) =>
      PushKeeps(s, m);
    case Heartbeat(beat, _) =>
      PushKeeps(s, beat);
      CloseKeeps(s);
    case Shut =>
      CloseKeeps(s);
    case Process(alive, handler) =>
      ProcessKeeps(s, alive, handler);
  }

  function Run(s: Stream, ops: seq<Op>): Stream
    decreases |ops|
  {
    if ops == [] then s else Run(Do(s, ops[0]), ops[1..])
  }

  lemma {:induction false} RunKeeps(s: Stream, ops: seq<Op>)
    requires Inv(s)
    ensures Inv(Run(s, ops))
    decreases |ops|
  {
    if ops != [] {
      OpKeeps(s, ops[0]);
      RunKeeps(Do(s, ops[0]), ops[1..]);
    }
  }

  /** A body of chunks without the last chunk: the client sees these messages, and that more may follow. */
  lemma OpenBodyIsSeen(sent: seq<Message>)
    ensures var body := Dechunk(Chunks(Formats(sent)) + CHUNK_END);
            && Dechunk(Chunks(Formats(sent))).Incomplete? && body.Complete?
            && (AllWellFormed(sent) ==> (Decode(body.content) == Meanings(sent) <==> Clean(sent)))
  {
    hide Dechunk, Chunks;
    assert Frames(sent) + "" == Frames(sent);
    ChunksDecode(Formats(sent), "");
    if AllWellFormed(sent) {
      FramesSurviveIffCrFree(sent, "");
    }
    TruncationIsDetected(Formats(sent), |Chunks(Formats(sent))|);
    assert Frames(sent)[..|Chunks(Formats(sent))|] == Chunks(Formats(sent));
  }

  /**
   Whatever is pushed and whenever the reactor, the heartbeat and the peer act: the bytes sent are the
   response head and a chunked body that decodes to a prefix of the messages queued, each once and in
   order, exactly when their data contain no CR; while neither stream nor connection is closing nothing
   queued is lost, never more than 64 messages wait, and the chat handler is called at most once. A chat
   has no heartbeat that would push, and one without a handler gets the fallback's frames and nothing else.
   */
  lemma QueueReachesTheClient(chat: bool, head: string, ops: seq<Op>)
    ensures var s := Run(Upgraded(chat, head), ops);
            && s.wire == s.Head() + s.Direct() + s.Body()
            && s.sent <= s.queued && (!s.closed && !s.closeRequested ==> s.queued == s.sent + s.pending)
            && |s.pending| <= MAX_PENDING_EVENTS && (chat ==> !s.heartbeat)
            && s.chats <= 1 && (s.chats == 1 ==> chat && !s.closeRequested)
            && (s.closeRequested ==> chat && s.wire == head + Frames(Fallback()))
    ensures var s := Run(Upgraded(chat, head), ops);
            var body := Dechunk(s.Body() + CHUNK_END);
            && Dechunk(s.Body()).Incomplete? && body.Complete?
            && (AllWellFormed(s.sent) ==> (Decode(body.content) == Meanings(s.sent) <==> Clean(s.sent)))
  {
    assert Formats([]) == [];
    RunKeeps(Upgraded(chat, head), ops);
    ChatStays(Upgraded(chat, head), ops);
    OpenBodyIsSeen(Run(Upgraded(chat, head), ops).sent);
    if Run(Upgraded(chat, head), ops).closeRequested {
      FallbackEnds(Run(Upgraded(chat, head), ops));
    }
  }

  lemma FallbackEnds(s: Stream)
    requires Inv(s) && s.closeRequested
    ensures s.wire == s.head + Frames(Fallback())
  {
    hide Frames;
    assert Formats([]) == [];
    assert s.head + s.Direct() + "" == s.head + s.Direct();
  }

  lemma {:induction false} FlushFrame(s: Stream)
    ensures DoFlush(s).chat == s.chat && DoFlush(s).head == s.head
    decreases |s.pending|
  {
    if s.pending != [] {
      FlushFrame(DoSend(s));
    }
  }

  lemma OpFrame(s: Stream, op: Op)
    ensures Do(s, op).chat == s.chat && Do(s, op).head == s.head
  {
    if op.Process? {
      FlushFrame(DoChat(DoBegin(s), op.handler));
    }
  }

  lemma {:induction false} ChatStays(s: Stream, ops: seq<Op>)
    ensures Run(s, ops).chat == s.chat && Run(s, ops).head == s.head
    decreases |ops|
  {
    if ops != [] {
      OpFrame(s, ops[0]);
      ChatStays(Do(s, ops[0]), ops[1..]);
    }
  }

  /** A flush over a live connection empties the queue. */
  lemma ProcessDelivers(s: Stream, handler: bool)
    requires Inv(s) && !s.closed
    ensures var r := DoProcess(s, true, handler);
            && r.1 == NeedMore && r.0.pending == [] && r.0.handshakeSent && r.0.queued == s.queued
            && (r.0.closeRequested <==> s.closeRequested || (s.pendingChat && !handler))
            && r.0.sent == if r.0.closeRequested then [] else s.queued
  {
    BeginKeeps(s, handler);
    FlushSendsAll(DoChat(DoBegin(s), handler));
    FlushHandshake(DoChat(DoBegin(s), handler));
  }

  lemma {:induction false} FlushHandshake(s: Stream)
    ensures DoFlush(s).handshakeSent == s.handshakeSent
    decreases |s.pending|
  {
    if s.pending != [] {
      FlushHandshake(DoSend(s));
    }
  }

  /** A flush asks for the connection's end exactly when the stream is closed, or could not send what it had to. */
  lemma ProcessReports(s: Stream, alive: bool, handler: bool)
    requires Inv(s)
    ensures DoProcess(s, alive, handler).1 ==
            if s.closed || (!alive && (!s.handshakeSent || s.pending != [])) then Close else NeedMore
  {
  }

  /** A closed stream sends and queues nothing more, and has no heartbeat. */
  lemma {:induction false} ClosedStays(s: Stream, ops: seq<Op>)
    requires s.closed
    ensures Run(s, ops) == s
    decreases |ops|
  {
    if ops != [] {
      ClosedStays(s, ops[1..]);
    }
  }

  // ---------- What the calls add up to ----------

  /**
   The calls on a stream, tallied: whether it is open, has shaken hands and has asked for the close, how
   many events wait, and which were pushed and sent.
   */
  datatype Tally = Tally(
    open: bool, shaken: bool, refused: bool, waiting: nat, pushed: seq<Message>, sent: seq<Message>)
  {
    /** An event is taken while the stream is open and fewer than 64 wait. */
    function Take(m: Message): Tally {
      if open && waiting < 64 then this.(waiting := waiting + 1, pushed := pushed + [m]) else this
    }

    function Closed(): Tally {
      this.(open := false, waiting := 0)
    }

    /** A live flush sends all that wait; on a connection that was asked to close they are lost. */
    function Flushed(): Tally {
      this.(waiting := 0, sent := if refused then sent else pushed)
    }
  }

  const NOTHING_YET := Tally(true, false, false, 0, [], [])

  function Count(chat: bool, t: Tally, op: Op): Tally {
    if !t.open then t
    else
      match op
      case Push(m, _) => t.Take(m)
      case Heartbeat(beat, alive) => if alive && t.waiting < 64 then t.Take(beat) else t.Closed()
      case Shut => t.Closed()
      case Process(alive, handler) =>
        if !t.shaken && !alive then t
        else
          var begun := t.(shaken := true, refused := t.refused || (chat && !t.shaken && !handler));
          if alive then begun.Flushed() else if t.waiting > 0 then begun.Closed() else begun
  }

  function CountAll(chat: bool, t: Tally, ops: seq<Op>): Tally
    decreases |ops|
  {
    if ops == [] then t else CountAll(chat, Count(chat, t, ops[0]), ops[1..])
  }

  predicate Agrees(s: Stream, t: Tally) {
    && s.closed == !t.open && s.handshakeSent == t.shaken && s.closeRequested == t.refused
    && |s.pending| == t.waiting && s.queued == t.pushed && s.sent == t.sent
    && s.heartbeat == (t.open && t.shaken && !s.chat)
    && s.pendingChat == (s.chat && !t.shaken)
  }

  lemma ProcessAgrees(s: Stream, t: Tally, alive: bool, handler: bool)
    requires Inv(s) && Agrees(s, t) && !s.closed && (s.handshakeSent || alive)
    ensures Agrees(DoProcess(s, alive, handler).0, Count(s.chat, t, Process(alive, handler)))
  {
    hide Frames, Inv;
    var begun := DoChat(DoBegin(s), handler);
    BeginKeeps(s, handler);
    if alive {
      SentIsPrefix(begun);
      FlushSendsAll(begun);
      FlushFrame(begun);
      FlushFlags(begun);
    }
  }

  lemma SentIsPrefix(s: Stream)
    requires Inv(s)
    ensures s.closeRequested ==> s.sent == []
  {
  }

  lemma {:induction false} FlushFlags(s: Stream)
    ensures var f := DoFlush(s);
            f.handshakeSent == s.handshakeSent && f.heartbeat == s.heartbeat && f.pendingChat == s.pendingChat
    decreases |s.pending|
  {
    if s.pending != [] {
      FlushFlags(DoSend(s));
    }
  }

  lemma OpAgrees(s: Stream, t: Tally, op: Op)
    requires Inv(s) && Agrees(s, t)
    ensures Agrees(Do(s, op), Count(s.chat, t, op))
  {
    hide Inv;
    if op.Process? && !s.closed && (s.handshakeSent || op.alive) {
      ProcessAgrees(s, t, op.alive, op.handler);
    }
  }

  lemma {:induction false} RunAgrees(s: Stream, t: Tally, ops: seq<Op>)
    requires Inv(s) && Agrees(s, t)
    ensures Agrees(Run(s, ops), CountAll(s.chat, t, ops))
    decreases |ops|
  {
    hide Inv, Agrees;
    if ops != [] {
      OpKeeps(s, ops[0]);
      OpAgrees(s, t, ops[0]);
      OpFrame(s, ops[0]);
      RunAgrees(Do(s, ops[0]), Count(s.chat, t, ops[0]), ops[1..]);
    }
  }

  /**
   After any calls a stream has queued exactly the events that were pushed, or beaten, while it was open and
   had room, and sent those of them that had been by its last live flush.
   */
  lemma QueueIsWhatWasPushed(chat: bool, head: string, ops: seq<Op>)
    ensures Agrees(Run(Upgraded(chat, head), ops), CountAll(chat, NOTHING_YET, ops))
  {
    assert Formats([]) == [];
    RunAgrees(Upgraded(chat, head), NOTHING_YET, ops);
  }

  /** An event that was taken is the last that waits, and the next live flush sends it last. */
  lemma PushedIsSent(s: Stream, m: Message, alive: bool, handler: bool)
    requires Inv(s) && !s.closed && |s.pending| < 64 && !s.closeRequested && (s.pendingChat ==> handler)
    ensures var pushed := Do(s, Push(m, alive));
            var flushed := Do(pushed, Process(true, handler));
            && pushed.pending == s.pending + [m] && pushed.queued == s.queued + [m]
            && flushed.pending == [] && flushed.sent == s.queued + [m]
            && flushed.wire == s.head + Chunks(Formats(s.queued + [m]))
  {
    hide Inv;
    var pushed := Do(s, Push(m, alive));
    OpKeeps(s, Push(m, alive));
    ProcessDelivers(pushed, handler);
    OpKeeps(pushed, Process(true, handler));
    OpFrame(s, Push(m, alive));
    OpFrame(pushed, Process(true, handler));
    WireIs(Do(pushed, Process(true, handler)));
  }

  lemma WireIs(s: Stream)
    requires Inv(s) && s.handshakeSent && !s.closeRequested
    ensures s.wire == s.head + Chunks(Formats(s.sent))
  {
    assert s.head + "" == s.head;
  }

  lemma FallbackFrames(before: string, error: string, done: string)
    requires error == Fallback()[0].Format() && done == Fallback()[1].Format()
    ensures before + Chunk(error) + Chunk(done) + CHUNK_END == before + Frames(Fallback())
  {
    hide Chunk, FormatSse;
    var frames := Formats(Fallback());
    assert frames == [error] + [done] && frames[1..] == [done] && frames[1..][1..] == [];
    assert Chunks(frames) == Chunk(error) + (Chunk(done) + "");
    assert Chunk(done) + "" == Chunk(done);
    Associative(before, Chunk(error), Chunk(done));
    Associative(before, Chunk(error) + Chunk(done), CHUNK_END);
  }

  /** A chat without a handler: the client sees one error and one done event, and the end of the stream. */
  lemma FallbackIsSeen(s: Stream, rest: string)
    requires s.closeRequested
    ensures var body := Dechunk(s.Direct() + rest);
            && body.Complete? && body.rest == rest
            && Decode(body.content) == [Event("error", "chat handler not configured"), Event("done", "[DONE]")]
  {
    FallbackMeans();
    hide Fallback, Dechunk, Frames;
    FramesDecode(Fallback(), rest);
  }

  lemma FallbackMeans()
    ensures Clean(Fallback())
    ensures Meanings(Fallback()) == [Event("error", "chat handler not configured"), Event("done", "[DONE]")]
  {
    var error, done := Fallback()[0], Fallback()[1];
    assert forall i | 0 <= i < |error.data| :: error.data[i] != '\r';
    assert forall i | 0 <= i < |error.eventType| :: error.eventType[i] != '\r' && error.eventType[i] != '\n';
    assert forall i | 0 <= i < |done.data| :: done.data[i] != '\r';
    assert forall i | 0 <= i < |done.eventType| :: done.eventType[i] != '\r' && done.eventType[i] != '\n';
  }

  lemma ClosedIsEmpty(s: Stream)
    requires Inv(s)
    ensures s.closed ==> s.pending == []
  {
  }

  class SseHandler {
    const chat: bool
    // The status line and the header fields of the response.
    const head: string
    var handshakeSent: bool
    var closed: bool
    // Whether the heartbeat timer is armed.
    var heartbeat: bool
    var pendingChat: bool
    var chats: nat
    // Whether the connection was asked to close.
    var closeRequested: bool
    var pendingEvents: seq<string>
    ghost var pending: seq<Message>
    ghost var queued: seq<Message>
    ghost var sent: seq<Message>
    ghost var wire: string

    ghost function State(): Stream
      reads this
    {
      Stream(chat, head, handshakeSent, closed, heartbeat, pendingChat, chats, closeRequested,
             pending, queued, sent, wire)
    }

    ghost predicate Valid()
      reads this
    {
      Inv(State()) && pendingEvents == Formats(pending)
    }

    constructor (chat: bool, head: string)
      ensures Valid() && State() == Upgraded(chat, head)
    {
      this.chat, this.head, pendingChat, chats := chat, head, chat, 0;
      handshakeSent, closed, heartbeat, closeRequested := false, false, false, false;
      pendingEvents := [];
      pending, queued, sent, wire := [], [], [], "";
      new;
      assert Formats([]) == [];
    }

    method SendData(data: string, alive: bool) returns (ok: bool)
      modifies this`wire
      ensures ok == alive && wire == old(wire) + if alive && !closeRequested then data else ""
    {
      if alive && !closeRequested {
        wire := wire + data;
      }
      ok := alive;
    }

    method CloseStream()
      requires Inv(State()) && (closed ==> pendingEvents == [])
      modifies this
      ensures Valid() && State() == DoClose(old(State()))
    {
      hide Inv;
      CloseKeeps(State());
      ClosedIsEmpty(State());
      if closed {
        return;
      }
      closed, heartbeat := true, false;
      pendingEvents := [];
      pending := [];
    }

    /** Queues an event; the answer also tells whether anyone is left to flush it. */
    method PushEvent(m: Message, alive: bool) returns (ok: bool)
      requires Valid()
      modifies this
      ensures Valid() && State() == Do(old(State()), Push(m, alive))
      ensures ok <==> !old(closed) && old(|pendingEvents|) < 64 && alive
      ensures ok ==> pending == old(pending) + [m]
    {
      hide FormatSse, Inv;
      OpKeeps(State(), Push(m, alive));
      if closed {
        return false;
      }
      var message := FormatSseMessage(m.data, m.eventType, m.id);
      if |pendingEvents| >= MAX_PENDING_EVENTS {
        return false;
      }
      assert Formats(pending + [m]) == Formats(pending) + [m.Format()];
      pendingEvents := pendingEvents + [message];
      pending, queued := pending + [m], queued + [m];
      ok := alive;
    }

    method OnHeartbeat(beat: Message, alive: bool)
      requires Valid()
      modifies this
      ensures Valid() && State() == Do(old(State()), Heartbeat(beat, alive))
    {
      if closed {
        return;
      }
      if !alive {
        CloseStream();
        return;
      }
      var ok := PushEvent(beat, alive);
      if !ok {
        CloseStream();
      }
    }

    method BeginStream(alive: bool) returns (ok: bool)
      requires Valid() && !closed && !handshakeSent
      modifies this
      ensures ok == alive
      ensures State() == if alive then DoBegin(old(State())) else old(State())
      ensures pendingEvents == old(pendingEvents)
    {
      ok := SendData(head, alive);
      if ok {
        handshakeSent, heartbeat := true, !chat;
      }
    }

    /** Takes the oldest event off the queue and sends it, if it still can. */
    method SendOldest(alive: bool) returns (ok: bool)
      requires Valid() && pending != []
      modifies this
      ensures ok == alive
      ensures ok ==> State() == DoSend(old(State())) && pendingEvents == Formats(pending)
      ensures !ok ==> State() == old(State()) && pendingEvents == Formats(pending[1..])
    {
      hide FormatSse, Chunk;
      assert pendingEvents[0] == pending[0].Format();
      assert pendingEvents[1..] == Formats(pending[1..]);
      var event := pendingEvents[0];
      pendingEvents := pendingEvents[1..];
      ok := SendData(Chunk(event), alive);
      if ok {
        sent, pending := if closeRequested then sent else sent + [pending[0]], pending[1..];
      }
    }

    /** Sends the pending events one by one, and closes the stream when one cannot be sent. */
    method Flush(alive: bool) returns (result: ProcessResult)
      requires Valid() && !closed && handshakeSent
      modifies this
      ensures Valid()
      ensures if alive || old(pending) == [] then State() == DoFlush(old(State())) && result == NeedMore
              else State() == DoClose(old(State())) && result == Close
    {
      ghost var goal := DoFlush(State());
      while pendingEvents != []
        invariant Valid() && !closed && handshakeSent
        invariant DoFlush(State()) == goal
        invariant !alive ==> State() == old(State())
        decreases |pendingEvents|
      {
        ghost var before := State();
        assert |Formats(pending)| == |pending|;
        SendKeeps(before);
        var ok := SendOldest(alive);
        if !ok {
          CloseKeeps(before);
          CloseStream();
          return Close;
        }
      }
      assert |Formats(pending)| == |pending|;
      result := NeedMore;
    }

    /** Tells the client that there is no chat handler, and ends the stream. */
    method FallBack(alive: bool)
      requires alive && !closeRequested
      modifies this`wire, this`closeRequested
      ensures closeRequested && wire == old(wire) + Frames(Fallback())
    {
      var error := FormatSseMessage("chat handler not configured", "error", "");
      var _ := SendData(Chunk(error), alive);
      var done := FormatSseMessage("[DONE]", "done", "");
      var _ := SendData(Chunk(done), alive);
      var _ := SendData(CHUNK_END, alive);
      closeRequested := true;
      FallbackFrames(old(wire), error, done);
    }

    /** Hands a chat to its handler, once. */
    method StartChat(alive: bool, handler: bool)
      requires pendingChat ==> alive && !closeRequested
      modifies this
      ensures State() == DoChat(old(State()), handler) && pendingEvents == old(pendingEvents)
    {
      hide Frames;
      if !pendingChat {
        return;
      }
      pendingChat := false;
      if handler {
        chats := chats + 1;
      } else {
        FallBack(alive);
      }
    }

    method Process(alive: bool, handler: bool) returns (result: ProcessResult)
      requires Valid()
      modifies this
      ensures Valid() && (State(), result) == DoProcess(old(State()), alive, handler)
    {
      hide Frames, DoChat;
      if closed {
        return Close;
      }
      BeginKeeps(State(), handler);
      if !handshakeSent {
        var ok := BeginStream(alive);
        if !ok {
          return Close;
        }
      }
      StartChat(alive, handler);
      BegunIsOpen(old(State()), handler);
      result := Flush(alive);
    }
  }

  lemma BegunIsOpen(s: Stream, handler: bool)
    ensures var begun := DoChat(DoBegin(s), handler);
            begun.closed == s.closed && begun.handshakeSent && begun.pending == s.pending
  {
  }
}
