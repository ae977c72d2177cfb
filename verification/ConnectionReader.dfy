/** The read side of a connection object: it fills its buffer, picks its handler and drives it. */
module ConnectionReader {
  import opened Text
  import opened Limits
  import opened HttpParser
  import opened ProtocolHandlers
  import opened HttpChannels
  import opened LineProtocol
  import opened ReadPath

  class ClientConnection {
    const buffer: ReadBuffer
    const http: HttpChannel
    const line: CustomLineHandler
    var protocol: Protocol
    var ended: Ended
    // What the client has been answered so far.
    ghost var requests: seq<Event>
    ghost var replies: seq<LineReply>

    /** The connection's state; the contents of the buffer and parser matter only while it is open. */
    ghost function State(): Connection
      reads this, buffer, http
    {
      if ended.Open? then Connection(protocol, http.State(), buffer.bytes, requests, replies, ended)
      else Connection(protocol, FRESH, "", requests, replies, ended)
    }

    constructor ()
      ensures State() == ACCEPTED
      ensures fresh(buffer) && fresh(http) && fresh(line)
    {
      buffer := new ReadBuffer();
      http := new HttpChannel();
      line := new CustomLineHandler();
      protocol, ended := Unknown, Open;
      requests, replies := [], [];
    }

    /** Appends what each `recv` returned; stops as soon as the buffer is over its limit. */
    method ReceiveChunks(chunks: seq<string>) returns (tooLarge: bool)
      requires |buffer.bytes| <= MAX_READ_BUFFER
      modifies buffer
      ensures tooLarge == (|old(buffer.bytes)| + |Concat(chunks)| > MAX_READ_BUFFER)
      ensures !tooLarge ==> buffer.bytes == old(buffer.bytes) + Concat(chunks)
    {
      var i := 0;
      assert chunks[0..] == chunks;
      while i < |chunks|
        invariant 0 <= i <= |chunks|
        invariant |buffer.bytes| <= MAX_READ_BUFFER
        invariant buffer.bytes + Concat(chunks[i..]) == old(buffer.bytes) + Concat(chunks)
      {
        assert chunks[i..][1..] == chunks[i + 1..];
        assert Concat(chunks[i..]) == chunks[i] + Concat(chunks[i + 1..]);
        buffer.Append(chunks[i]);
        if |buffer.bytes| > MAX_READ_BUFFER {
          assert |buffer.bytes| + |Concat(chunks[i + 1..])| == |old(buffer.bytes) + Concat(chunks)|;
          return true;
        }
        i := i + 1;
      }
      assert |buffer.bytes + Concat(chunks[i..])| == |old(buffer.bytes) + Concat(chunks)|;
      tooLarge := false;
    }

    /**
     Calls the HTTP handler again as long as it finished a request and bytes are left; tells whether the
     last call finished one.
     */
    method DriveHttp(w: World) returns (finished: bool)
      requires http.State().Ready() && ended.Open?
      modifies this`ended, this`requests, buffer, http
      ensures var d := Drive(w, old(http.State()), old(buffer.bytes));
              && requests == old(requests) + d.events && ended == d.ended
              && (ended.Open? ==> http.State() == d.ch && buffer.bytes == d.rest)
      ensures finished == LastContinued(w, old(http.State()), old(buffer.bytes))
    {
      ghost var goal := Drive(w, http.State(), buffer.bytes).After(requests);
      ghost var last := LastContinued(w, http.State(), buffer.bytes);
      while true
        invariant http.State().Ready() && ended.Open?
        invariant Drive(w, http.State(), buffer.bytes).After(requests) == goal
        invariant LastContinued(w, http.State(), buffer.bytes) == last
        decreases |buffer.bytes|
      {
        ConsumeAccounts(w, http.State(), buffer.bytes);
        ghost var sofar := requests;
        var events, result := http.Process(w, buffer);
        requests := requests + events;
        match result
        case Close =>
          ended := HandlerClosed;
          return false;
        case UpgradeSse =>
          ended := Upgraded;
          return false;
        case NeedMore =>
          return false;
        case Continue =>
          if buffer.bytes == "" {
            return true;
          }
          Drive(w, http.State(), buffer.bytes).AfterTwice(sofar, events);
      }
    }

    /** Picks the handler for the bytes that are there, if they suffice, or gives the connection up. */
    method DetectProtocol() returns (decided: bool)
      requires protocol.Unknown? && ended.Open?
      modifies this`protocol, this`ended
      ensures match Detect(buffer.bytes)
              case Undecided => !decided && protocol.Unknown? && ended.Open?
              case Unrecognised => !decided && protocol.Unknown? && ended.UnknownProtocol?
              case Detected(p) => decided && protocol == p && ended.Open?
    {
      decided := true;
      if StartsWith(buffer.bytes, "PING|") || StartsWith(buffer.bytes, "CHAT|") {
        protocol := CustomLine;
      } else if LooksLikeHttp(buffer.bytes) {
        protocol := Http;
      } else if FindCrlf(buffer.bytes) == |buffer.bytes| {
        decided := false;
      } else {
        ended := UnknownProtocol;
        decided := false;
      }
    }

    /** Runs the chosen handler over the buffer. */
    method Handle(w: World) returns (finished: bool)
      requires ended.Open? && !protocol.Unknown?
      requires http.State().Ready() && (protocol.CustomLine? ==> http.State() == FRESH)
      modifies this, buffer, http
      ensures State() == RunHandler(w, old(State()))
      ensures finished == if old(protocol).CustomLine? then Replies(old(buffer.bytes)).1 == ""
                          else LastContinued(w, old(http.State()), old(buffer.bytes))
    {
      if protocol.CustomLine? {
        var answers, result := line.Process(buffer, true);
        replies := replies + answers;
        finished := result.Continue?;
      } else {
        DriveKeepsReady(w, http.State(), buffer.bytes);
        finished := DriveHttp(w);
      }
    }

    /**
     One readable event: the chunks that `recv` returned, and why it returned no more. At least one
     byte must have arrived before, or now, or the peer must have closed.
     */
    method OnReadable(w: World, chunks: seq<string>, stop: Stop)
      requires ended.Open? && State().Valid() && |buffer.bytes| <= MAX_READ_BUFFER
      requires protocol.Unknown? && !stop.PeerClosed? ==> buffer.bytes + Concat(chunks) != ""
      modifies this, buffer, http
      ensures State() == ReadEvent(w, old(State()), Concat(chunks), stop)
      ensures State().Valid()
    {
      ReadEventKeeps(w, State(), Concat(chunks), stop);
      var needClose := stop.ReadError?;
      var tooLarge := ReceiveChunks(chunks);
      if tooLarge {
        ended := TooLarge;
        return;
      }
      if stop.PeerClosed? && buffer.bytes == "" {
        ended := PeerLeft;
        return;
      }
      if protocol.Unknown? {
        var decided := DetectProtocol();
        if !decided {
          if ended.Open? && stop.PeerClosed? {
            ended := PeerDone;
          }
          return;
        }
      }
      var finished := Handle(w);
      if finished {
        needClose := false;
      }
      if ended.Open? && (needClose || stop.PeerClosed?) {
        ended := if stop.PeerClosed? then PeerDone else ReadFailed;
      }
    }
  }
}
