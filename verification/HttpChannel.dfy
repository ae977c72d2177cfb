/** The parser as an object: it updates its own fields and erases what it takes from the buffer. */
module HttpChannels {
  import opened Text
  import opened Limits
  import opened HttpParser
  import opened ProtocolHandlers

  class HttpChannel {
    var state: ParseState
    var verb: string
    var path: string
    var version: string
    var query: string
    var headers: map<string, string>
    var body: string
    var contentLength: nat
    var keepAlive: bool
    var headerBytes: nat
    var headerCount: nat

    function State(): Channel
      reads this
    {
      Channel(state, verb, path, version, query, headers, body, contentLength, keepAlive, headerBytes, headerCount)
    }

    constructor ()
      ensures State() == FRESH
    {
      state := RequestLine;
      verb, path, version, query, headers, body := "", "", "", "", map[], "";
      contentLength, keepAlive, headerBytes, headerCount := 0, true, 0, 0;
    }

    /** Takes the next line and its CRLF, or leaves the buffer alone when no line is complete. */
    static method ExtractLine(buffer: ReadBuffer) returns (found: bool, line: string)
      modifies buffer
      ensures var i := FindCrlf(old(buffer.bytes));
              && found == (i < |old(buffer.bytes)|)
              && if found then line == old(buffer.bytes)[..i] && buffer.bytes == old(buffer.bytes)[i + 2..]
                 else buffer.bytes == old(buffer.bytes)
    {
      var pos := FindCrlf(buffer.bytes);
      if pos == |buffer.bytes| {
        return false, "";
      }
      line := buffer.bytes[..pos];
      buffer.bytes := buffer.bytes[pos + 2..];
      found := true;
    }

    method Reset()
      modifies this
      ensures State() == FRESH
    {
      state := RequestLine;
      verb, path, version, query, headers, body := "", "", "", "", map[], "";
      contentLength, keepAlive, headerBytes, headerCount := 0, true, 0, 0;
    }

    method TakeRequestLine(line: string) returns (ok: bool)
      modifies this
      ensures ok == ParseRequestLine(line).Some?
      ensures ok ==>
                var (m, p, q) := ParseRequestLine(line).value;
                State() == old(State()).(verb := m, path := p, query := q, version := "HTTP/1.1")
    {
      match ParseRequestLine(line)
      case None =>
        ok := false;
      case Some((m, p, q)) =>
        verb, path, query, version := m, p, q, "HTTP/1.1";
        ok := true;
    }

    method TakeHeaderLine(line: string) returns (ok: bool)
      modifies this
      ensures ok == ParseHeaderLine(old(State()), line).Some?
      ensures ok ==> State() == ParseHeaderLine(old(State()), line).value
    {
      var colon := IndexOf(line, ':');
      if colon == |line| {
        return false;
      }
      var key := Lower(line[..colon]);
      var value := SkipBlanks(line[colon + 1..]);
      if value == "" {
        return false;
      }
      if key == "content-length" {
        match ParseLength(value)
        case None =>
          return false;
        case Some(n) =>
          contentLength := n;
      }
      if key == "connection" {
        if Contains(Lower(value), "close") {
          keepAlive := false;
        } else if Contains(Lower(value), "keep-alive") {
          keepAlive := true;
        }
      }
      headers := headers[key := value];
      ok := true;
    }

    method TakeBody(buffer: ReadBuffer) returns (complete: bool)
      requires State().Valid() && state.Body?
      modifies this, buffer
      ensures var s := OnBody(old(State()), old(buffer.bytes));
              && complete == s.Go? && State() == s.ch && buffer.bytes == s.rest
    {
      var need := contentLength - |body|;
      if |buffer.bytes| >= need {
        var part := buffer.Take(need);
        body := body + part;
        state := Done;
        return true;
      }
      body := body + buffer.bytes;
      buffer.bytes := "";
      return false;
    }

    /** The request-line case of the parsing loop. */
    method StepRequestLine(line: string) returns (go: bool, events: seq<Event>)
      requires State() == FRESH
      modifies this
      ensures var s := OnRequestLine(old(State()), line, "");
              && go == s.Go? && (if go then State() == s.ch else events == s.events)
    {
      if |line| + 2 > MAX_HEADER_BYTES {
        return false, [Replied(431)];
      }
      headerBytes := |line| + 2;
      headerCount := 0;
      var ok := TakeRequestLine(line);
      if !ok {
        return false, [];
      }
      state := Headers;
      return true, [];
    }

    /** The header case of the parsing loop. */
    method StepHeaderLine(line: string) returns (go: bool, events: seq<Event>)
      requires state.Headers?
      modifies this
      ensures var s := OnHeaderLine(old(State()), line, "");
              && go == s.Go? && (if go then State() == s.ch else events == s.events)
    {
      if line == "" {
        if verb == "POST" && contentLength > 0 {
          if contentLength > MAX_BODY_BYTES {
            return false, [Replied(413)];
          }
          state := Body;
        } else {
          state := Done;
        }
        return true, [];
      }
      headerCount := headerCount + 1;
      if headerCount > MAX_HEADER_COUNT || headerBytes + |line| + 2 > MAX_HEADER_BYTES {
        return false, [Replied(431)];
      }
      headerBytes := headerBytes + |line| + 2;
      var ok := TakeHeaderLine(line);
      if !ok {
        return false, [Replied(400)];
      }
      return true, [];
    }

    /** Hands the finished request to its handler and, on a connection that goes on, resets. */
    method Handle(w: World) returns (events: seq<Event>, result: ProcessResult)
      requires State().Valid() && state.Done?
      modifies this
      ensures var o := Finish(w, old(State()), "");
              && events == o.events && result == o.result && (!result.Close? ==> State() == o.ch)
    {
      var request := State().ToRequest();
      var verdict := Dispatch(w, request);
      events := [Dispatched(request, headerBytes, headerCount)] + verdict.events;
      result := verdict.result;
      if !result.Close? {
        Reset();
      }
    }

    /** One turn of the parsing loop: takes a line or body bytes from the buffer, or finds too few. */
    method ParseOnce(buffer: ReadBuffer) returns (go: bool, events: seq<Event>, result: ProcessResult)
      requires State().Ready()
      modifies this, buffer
      ensures var s := Advance(old(State()), old(buffer.bytes));
              && go == s.Go? && buffer.bytes == s.rest
              && (s.Reject? ==> events == s.events && result == Close)
              && (s.Wait? ==> events == [] && result == NeedMore)
              && (!s.Reject? ==> State() == s.ch)
    {
      events, result := [], NeedMore;
      if state.Body? {
        go := TakeBody(buffer);
        return;
      }
      var found, line := ExtractLine(buffer);
      if !found {
        go := false;
        return;
      }
      if state.RequestLine? {
        go, events := StepRequestLine(line);
      } else {
        go, events := StepHeaderLine(line);
      }
      result := Close;
    }

    /** One call of the parser, in place: exactly what `Consume` computes from the old state and buffer. */
    method Process(w: World, buffer: ReadBuffer) returns (events: seq<Event>, result: ProcessResult)
      requires State().Valid()
      modifies this, buffer
      ensures var o := Consume(w, old(State()), old(buffer.bytes));
              && events == o.events && result == o.result && buffer.bytes == o.rest
              && (!result.Close? ==> State() == o.ch)
    {
      ghost var goal := Consume(w, State(), buffer.bytes);
      while state != Done
        invariant State().Valid()
        invariant Consume(w, State(), buffer.bytes) == goal
        decreases |buffer.bytes|, if state.Done? then 0 else 1
      {
        AdvanceKeeps(State(), buffer.bytes);
        var go;
        go, events, result := ParseOnce(buffer);
        if !go {
          return;
        }
      }
      events, result := Handle(w);
    }
  }
}
