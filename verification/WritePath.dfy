/**
 The write path of a connection: a bounded buffer in front of a non-blocking socket. `Do` says what
 each operation does; the connection object and its event registration are proved to do just that.
 */
module WritePath {
  import opened Text
  import opened Limits

  datatype Interest = In | Edge | Out

  /** What the kernel answered to a send of `len` bytes. */
  datatype SendResult = Sent(n: nat) | WouldBlock | Failed

  datatype Cause = Graceful | SendError | BufferFull

  /**
   `wire` is everything the kernel took and `accepted` everything the connection took on for
   sending; `cause` is why the connection closed itself.
   */
  datatype Writer = Writer(
    open: bool,
    buffer: string,
    registered: bool,
    closeRequested: bool,
    interests: set<Interest>,
    wire: string,
    accepted: string,
    cause: set<Cause>)
  {
    predicate Accepts(data: string) {
      open && !closeRequested && data != "" && |buffer| + |data| <= MAX_WRITE_BUFFER
    }

    function Close(why: Cause): Writer {
      this.(open := false, cause := cause + if open then {why} else {})
    }

    /** `n` bytes of the buffer went out. */
    function Flushed(n: nat): Writer
      requires n <= |buffer|
    {
      this.(buffer := buffer[n..], wire := wire + buffer[..n])
    }

    function AddWriteEvent(): Writer {
      this.(interests := interests + {Out}, registered := true)
    }

    /** Takes back EPOLLOUT if it was registered; an empty interest set is left as it is. */
    function RemoveWriteEvent(): Writer {
      if !registered then this
      else if interests - {Out} == {} then this.(registered := false)
      else this.(interests := interests - {Out}, registered := false)
    }
  }

  const CONNECTED := Writer(true, "", false, false, {In, Edge}, "", "", {})

  datatype Op =
    | SendData(data: string, result: SendResult)
    | HandleWrite(result: SendResult)
    | RequestClose

  /** The kernel never takes more than it was offered, and a closed descriptor fails. */
  predicate Possible(w: Writer, op: Op) {
    match op
    case SendData(data, Sent(n)) => n <= |w.buffer| + |data|
    case HandleWrite(Sent(n)) => w.open && n <= |w.buffer|
    case HandleWrite(WouldBlock) => w.open
    case _ => true
  }

  function DoSend(w: Writer, data: string, result: SendResult): Writer
    requires Possible(w, SendData(data, result))
  {
    if !w.open || w.closeRequested || data == "" then w
    else if |w.buffer| + |data| > MAX_WRITE_BUFFER then w.Close(BufferFull)
    else
      var queued := w.(buffer := w.buffer + data, accepted := w.accepted + data);
      if w.buffer != "" then queued
      else
        match result
        case WouldBlock => queued.AddWriteEvent()
        case Failed => queued.Close(SendError)
        case Sent(n) => if n == |queued.buffer| then queued.Flushed(n) else queued.Flushed(n).AddWriteEvent()
  }

  function DoHandleWrite(w: Writer, result: SendResult): Writer
    requires Possible(w, HandleWrite(result))
  {
    if w.buffer == "" then w.RemoveWriteEvent()
    else
      match result
      case WouldBlock => w
      case Failed => w.Close(SendError)
      case Sent(n) =>
        var rest := w.Flushed(n);
        if n < |w.buffer| then rest
        else if w.closeRequested then rest.RemoveWriteEvent().Close(Graceful)
        else rest.RemoveWriteEvent()
  }

  function DoRequestClose(w: Writer): Writer {
    if !w.open || w.closeRequested then w
    else
      var asked := w.(closeRequested := true);
      if w.buffer == "" then asked.Close(Graceful) else asked.AddWriteEvent()
  }

  function Do(w: Writer, op: Op): Writer
    requires Possible(w, op)
  {
    match op
    case SendData(data, result) => DoSend(w, data, result)
    case HandleWrite(result) => DoHandleWrite(w, result)
    case RequestClose => DoRequestClose(w)
  }

  predicate Inv(w: Writer) {
    && w.wire + w.buffer == w.accepted
    && |w.buffer| <= MAX_WRITE_BUFFER
    && {In, Edge} <= w.interests
    && (w.open ==> (w.registered <==> w.buffer != "") && (Out in w.interests <==> w.buffer != ""))
    && (w.open <==> w.cause == {})
    && (w.open && w.closeRequested ==> w.buffer != "")
    && (Graceful in w.cause ==> w.buffer == "" && w.closeRequested && w.cause == {Graceful})
  }

  lemma SendKeeps(w: Writer, data: string, result: SendResult)
    requires Inv(w) && Possible(w, SendData(data, result))
    ensures Inv(Do(w, SendData(data, result)))
  {
    if w.Accepts(data) {
      var queued := w.(buffer := w.buffer + data, accepted := w.accepted + data);
      assert queued.wire + queued.buffer == queued.accepted;
    }
  }

  lemma HandleWriteKeeps(w: Writer, result: SendResult)
    requires Inv(w) && Possible(w, HandleWrite(result))
    ensures Inv(Do(w, HandleWrite(result)))
  {
    if w.buffer != "" && result.Sent? {
      assert In in w.interests - {Out};
    }
  }

  lemma OpKeeps(w: Writer, op: Op)
    requires Inv(w) && Possible(w, op)
    ensures Inv(Do(w, op))
  {
    match op
    case SendData(data, result) => SendKeeps(w, data, result);
    case HandleWrite(result) => HandleWriteKeeps(w, result);
    case RequestClose =>
  }

  predicate Legal(w: Writer, ops: seq<Op>)
    decreases |ops|
  {
    ops == [] || (Possible(w, ops[0]) && Legal(Do(w, ops[0]), ops[1..]))
  }

  function Run(w: Writer, ops: seq<Op>): Writer
    requires Legal(w, ops)
    decreases |ops|
  {
    if ops == [] then w else Run(Do(w, ops[0]), ops[1..])
  }

  /** What an operation adds to the accepted data. */
  function TakenOn(w: Writer, op: Op): string {
    if op.SendData? && w.Accepts(op.data) then op.data else ""
  }

  lemma OpAccepts(w: Writer, op: Op)
    requires Possible(w, op)
    ensures Do(w, op).accepted == w.accepted + TakenOn(w, op)
    ensures w.wire <= Do(w, op).wire
  {
    assert w.accepted + "" == w.accepted;
  }

  /** The data of the sends that the connection took on, in order. */
  function Accepted(w: Writer, ops: seq<Op>): string
    requires Legal(w, ops)
    decreases |ops|
  {
    if ops == [] then ""
    else TakenOn(w, ops[0]) + Accepted(Do(w, ops[0]), ops[1..])
  }

  /**
   Under any mix of sends, partial writes and refusals: what is on the wire, followed by what is
   buffered, is exactly what was accepted, in order; the buffer respects its bound; and on an open
   connection a non-empty buffer, the registration flag and EPOLLOUT go together.
   */
  lemma {:induction false} NothingLostOrReordered(w: Writer, ops: seq<Op>)
    requires Inv(w) && Legal(w, ops)
    ensures var r := Run(w, ops);
            && Inv(r)
            && r.wire + r.buffer == w.accepted + Accepted(w, ops)
            && w.wire <= r.wire
    decreases |ops|
  {
    if ops != [] {
      var next := Do(w, ops[0]);
      OpKeeps(w, ops[0]);
      OpAccepts(w, ops[0]);
      NothingLostOrReordered(next, ops[1..]);
      Associative(w.accepted, TakenOn(w, ops[0]), Accepted(next, ops[1..]));
    } else {
      assert w.accepted + "" == w.accepted;
    }
  }

  /** A connection that closed gracefully has put on the wire everything it accepted. */
  lemma GracefulCloseFlushesAll(ops: seq<Op>)
    requires Legal(CONNECTED, ops) && Graceful in Run(CONNECTED, ops).cause
    ensures Run(CONNECTED, ops).wire == Accepted(CONNECTED, ops)
  {
    NothingLostOrReordered(CONNECTED, ops);
    assert "" + Accepted(CONNECTED, ops) == Accepted(CONNECTED, ops);
    var r := Run(CONNECTED, ops);
    assert r.wire + "" == r.wire;
  }

  // ---------- What is asked is accepted ----------

  /** What the program asks of a connection. */
  datatype Act = Send(data: string) | Close

  /** The requests among a connection's operations; the rest are write events of the kernel. */
  function Asked(ops: seq<Op>): seq<Act> {
    if ops == [] then []
    else
      (match ops[0]
       case SendData(data, _) => [Send(data)]
       case RequestClose => [Close]
       case HandleWrite(_) => [])
      + Asked(ops[1..])
  }

  function SentBytes(acts: seq<Act>): string {
    if acts == [] then "" else (if acts[0].Send? then acts[0].data else "") + SentBytes(acts[1..])
  }

  /** Only non-empty sends, with at most one close, and that at the end. */
  predicate ClosesLast(acts: seq<Act>) {
    forall i | 0 <= i < |acts| :: if acts[i].Close? then i == |acts| - 1 else acts[i].data != ""
  }

  predicate Unharmed(w: Writer) {
    SendError !in w.cause && BufferFull !in w.cause
  }

  lemma {:induction false} HarmStays(w: Writer, ops: seq<Op>)
    requires Legal(w, ops) && !Unharmed(w)
    ensures !Unharmed(Run(w, ops))
    decreases |ops|
  {
    if ops != [] {
      HarmStays(Do(w, ops[0]), ops[1..]);
    }
  }

  /** A connection that is not harmed takes on every byte it is asked to send before the close. */
  lemma {:induction false} EverythingIsAccepted(w: Writer, ops: seq<Op>)
    requires Inv(w) && w.open && !w.closeRequested && Legal(w, ops)
    requires Unharmed(Run(w, ops)) && ClosesLast(Asked(ops))
    ensures Accepted(w, ops) == SentBytes(Asked(ops))
    decreases |ops|
  {
    if ops != [] {
      var op, next := ops[0], Do(w, ops[0]);
      OpKeeps(w, op);
      if !Unharmed(next) {
        HarmStays(next, ops[1..]);
      }
      match op
      case SendData(data, _) =>
        assert Asked(ops)[0] == Send(data) && Asked(ops)[1..] == Asked(ops[1..]);
        EverythingIsAccepted(next, ops[1..]);
      case RequestClose =>
        assert Asked(ops)[0] == Close;
        assert Asked(ops[1..]) == [] by {
          assert Asked(ops) == [Close] + Asked(ops[1..]);
        }
        NothingAsked(next, ops[1..]);
      case HandleWrite(_) =>
        assert Asked(ops) == Asked(ops[1..]);
        assert next.open;
        EverythingIsAccepted(next, ops[1..]);
    }
  }

  lemma {:induction false} NothingAsked(w: Writer, ops: seq<Op>)
    requires Legal(w, ops) && Asked(ops) == []
    ensures Accepted(w, ops) == ""
    decreases |ops|
  {
    if ops != [] {
      NothingAsked(Do(w, ops[0]), ops[1..]);
    }
  }

  lemma SendCons(data: string, acts: seq<Act>)
    ensures SentBytes([Send(data)] + acts) == data + SentBytes(acts)
  {
    assert ([Send(data)] + acts)[1..] == acts;
  }

  // ---------- Closing ----------

  /** The connection has closed itself with everything sent, or waits for a write event to go on with it. */
  predicate ClosesInTime(w: Writer) {
    && w.closeRequested
    && if w.open then w.buffer != "" && w.registered && Out in w.interests
       else w.cause == {Graceful} && w.buffer == "" && w.wire == w.accepted
  }

  lemma {:induction false} CloseIsRemembered(w: Writer, ops: seq<Op>)
    requires Inv(w) && Legal(w, ops) && Unharmed(Run(w, ops))
    requires w.closeRequested || Close in Asked(ops)
    ensures Inv(Run(w, ops)) && Run(w, ops).closeRequested
    decreases |ops|
  {
    if ops != [] {
      var next := Do(w, ops[0]);
      OpKeeps(w, ops[0]);
      if !Unharmed(w) {
        HarmStays(w, ops);
      }
      if w.closeRequested || ops[0].RequestClose? {
        CloseIsNoted(w, ops[0]);
      }
      assert Close in Asked(ops) ==> ops[0].RequestClose? || Close in Asked(ops[1..]);
      CloseIsRemembered(next, ops[1..]);
    }
  }

  lemma CloseIsNoted(w: Writer, op: Op)
    requires Inv(w) && Possible(w, op) && Unharmed(w) && (w.closeRequested || op.RequestClose?)
    ensures Do(w, op).closeRequested
  {
    assert forall c | c in w.cause :: c == Graceful;
  }

  /**
   An unharmed connection that was asked to close does so: at once when nothing is left to send, and
   otherwise as soon as write events, which it waits for, have sent it all.
   */
  lemma AskedToCloseCloses(w: Writer, ops: seq<Op>)
    requires Inv(w) && Legal(w, ops) && Unharmed(Run(w, ops)) && Close in Asked(ops)
    ensures ClosesInTime(Run(w, ops))
  {
    CloseIsRemembered(w, ops);
    var r := Run(w, ops);
    assert forall c | c in r.cause :: c == Graceful;
    assert r.wire + "" == r.wire;
  }

  /** Nothing that is sent behind the request to close is taken on. */
  lemma {:induction false} NothingIsTakenAfterClose(w: Writer, ops: seq<Op>)
    requires Legal(w, ops) && (w.closeRequested || !w.open)
    ensures Accepted(w, ops) == ""
    decreases |ops|
  {
    if ops != [] {
      NothingIsTakenAfterClose(Do(w, ops[0]), ops[1..]);
    }
  }

  lemma CloseEndsSending(w: Writer, ops: seq<Op>)
    requires Legal(w, [RequestClose] + ops)
    ensures Accepted(w, [RequestClose] + ops) == ""
  {
    assert ([RequestClose] + ops)[1..] == ops;
    NothingIsTakenAfterClose(Do(w, RequestClose), ops);
  }

  predicate Sends(w: Writer, op: Op) {
    op.SendData? && !w.closeRequested && op.data != ""
  }

  /**
   What closes a connection: a send that does not fit, a failed send or write, the last byte of one that was
   asked to close, and that request when nothing is left to send.
   */
  lemma WhatCloses(w: Writer, op: Op)
    requires Inv(w) && Possible(w, op) && w.open
    ensures Do(w, op).cause ==
            if Sends(w, op) && |w.buffer| + |op.data| > 4194304 then {BufferFull}
            else if Sends(w, op) && w.buffer == "" && op.result.Failed? then {SendError}
            else if op.HandleWrite? && w.buffer != "" && op.result.Failed? then {SendError}
            else if op.HandleWrite? && w.closeRequested && op.result == Sent(|w.buffer|) then {Graceful}
            else if op.RequestClose? && w.buffer == "" then {Graceful}
            else {}
    ensures Do(w, op).open <==> Do(w, op).cause == {}
  {
    OpKeeps(w, op);
  }

  /** Asked to close, a connection that the kernel keeps serving gets there: each write event makes progress. */
  lemma ClosingMakesProgress(w: Writer, n: nat)
    requires Inv(w) && w.open && w.closeRequested && n <= |w.buffer|
    ensures var r := Do(w, HandleWrite(Sent(n)));
            if n == |w.buffer| then r.cause == {Graceful} && r.wire == r.accepted == w.accepted
            else r.open && |r.buffer| == |w.buffer| - n && r.registered
  {
    HandleWriteKeeps(w, Sent(n));
    var r := Do(w, HandleWrite(Sent(n)));
    assert r.wire + "" == r.wire;
  }

  /** The kernel's answers are not the program's choice: any answer to a send is possible. */
  class Socket {
    ghost var wire: string

    constructor ()
      ensures wire == ""
    {
      wire := "";
    }

    method Send(data: string, answer: SendResult)
      requires answer.Sent? ==> answer.n <= |data|
      modifies this
      ensures wire == old(wire) + (if answer.Sent? then data[..answer.n] else "")
    {
      if answer.Sent? {
        wire := wire + data[..answer.n];
      }
    }
  }

  /** The event registrations of the loop, for the one descriptor of this connection. */
  class EventTable {
    var interests: set<Interest>

    constructor ()
      ensures interests == {In, Edge}
    {
      interests := {In, Edge};
    }

    method AddWriteEvent()
      modifies this
      ensures interests == old(interests) + {Out}
    {
      interests := interests + {Out};
    }

    method RemoveWriteEvent()
      modifies this
      ensures interests == if old(interests) - {Out} == {} then old(interests) else old(interests) - {Out}
    {
      var remaining := interests - {Out};
      if remaining == {} {
        return;
      }
      interests := remaining;
    }
  }

  class ConnectionWriter {
    const socket: Socket
    const loop: EventTable
    var open: bool
    var buffer: string
    var registered: bool
    var closeRequested: bool
    ghost var accepted: string
    ghost var cause: set<Cause>

    ghost function State(): Writer
      reads this, socket, loop
    {
      Writer(open, buffer, registered, closeRequested, loop.interests, socket.wire, accepted, cause)
    }

    constructor ()
      ensures State() == CONNECTED && fresh(socket) && fresh(loop)
    {
      socket := new Socket();
      loop := new EventTable();
      open, buffer, registered, closeRequested := true, "", false, false;
      accepted, cause := "", {};
    }

    method CloseConnection(ghost why: Cause)
      modifies this
      ensures State() == old(State()).Close(why)
    {
      if open {
        open := false;
        cause := cause + {why};
      }
    }

    method SendData(data: string, answer: SendResult)
      requires Possible(State(), Op.SendData(data, answer))
      modifies this, socket, loop
      ensures State() == Do(old(State()), Op.SendData(data, answer))
    {
      if !open || closeRequested || data == "" {
        return;
      }
      var wasEmpty := buffer == "";
      if |buffer| + |data| > MAX_WRITE_BUFFER {
        CloseConnection(BufferFull);
        return;
      }
      buffer := buffer + data;
      accepted := accepted + data;
      if wasEmpty {
        socket.Send(buffer, answer);
        match answer
        case WouldBlock =>
          loop.AddWriteEvent();
          registered := true;
        case Failed =>
          CloseConnection(SendError);
        case Sent(n) =>
          if n == |buffer| {
            buffer := "";
          } else {
            buffer := buffer[n..];
            loop.AddWriteEvent();
            registered := true;
          }
      }
    }

    method HandleWrite(answer: SendResult)
      requires Possible(State(), Op.HandleWrite(answer))
      modifies this, socket, loop
      ensures State() == Do(old(State()), Op.HandleWrite(answer))
    {
      if buffer == "" {
        if registered {
          loop.RemoveWriteEvent();
          registered := false;
        }
        return;
      }
      socket.Send(buffer, answer);
      match answer
      case WouldBlock =>
        return;
      case Failed =>
        CloseConnection(SendError);
      case Sent(n) =>
        if n == |buffer| {
          buffer := "";
          if registered {
            loop.RemoveWriteEvent();
            registered := false;
          }
          if closeRequested {
            CloseConnection(Graceful);
          }
        } else {
          buffer := buffer[n..];
        }
    }

    method RequestClose()
      modifies this, loop
      ensures State() == Do(old(State()), Op.RequestClose)
    {
      if !open || closeRequested {
        return;
      }
      closeRequested := true;
      if buffer == "" {
        CloseConnection(Graceful);
      } else {
        loop.AddWriteEvent();
        registered := true;
      }
    }
  }
}
