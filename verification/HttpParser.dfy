/**
 The incremental HTTP/1.1 parser. `Consume` says what one call of the parser does to the
 parser state and the connection's buffer; `HttpChannel` is the stateful object that does it in
 place.
 */
module HttpParser {
  import opened Text
  import opened Limits
  import opened ProtocolHandlers

  datatype ParseState = RequestLine | Headers | Body | Done

  datatype Request = Request(
    verb: string,
    path: string,
    query: string,
    headers: map<string, string>,
    body: string,
    keepAlive: bool)

  /** What the outside world sees: a request handed to its handler, or a reply with a status code. */
  datatype Event =
    | Dispatched(request: Request, headBytes: nat, headerCount: nat)
    | Replied(status: nat)

  /** The file system (path to status code, 200 when the file is served) and the chat-body check. */
  datatype World = World(file: string -> nat, chatBody: string -> bool)

  datatype Channel = Channel(
    state: ParseState,
    verb: string,
    path: string,
    version: string,
    query: string,
    headers: map<string, string>,
    body: string,
    contentLength: nat,
    keepAlive: bool,
    headerBytes: nat,
    headerCount: nat)
  {
    function ToRequest(): Request {
      Request(verb, path, query, headers, body, keepAlive)
    }

    /** The request announces a body that the parser will collect. */
    predicate WantsBody() {
      verb == "POST" && contentLength > 0
    }

    predicate InLimits() {
      && headerBytes <= MAX_HEADER_BYTES
      && headerCount <= MAX_HEADER_COUNT
      && contentLength <= INT_MAX
    }

    /** The length is what the recorded content-length header says, or zero without one. */
    predicate Announced() {
      AnnouncedLength(headers) == Some(contentLength)
    }

    /** What holds of the parser between any two steps. */
    predicate Valid() {
      match state
      case RequestLine => this == FRESH
      case Headers => InLimits() && Announced() && body == ""
      case Body => InLimits() && Announced() && WantsBody() && |body| < contentLength <= MAX_BODY_BYTES
      case Done =>
        && InLimits() && Announced()
        && (if WantsBody() then |body| == contentLength <= MAX_BODY_BYTES else body == "")
    }

    /** What holds whenever the parser waits for bytes. */
    predicate Ready() {
      Valid() && !state.Done?
    }

    /** Bytes of the current request that the parser has taken out of the buffer. */
    function Taken(): nat {
      match state
      case RequestLine => 0
      case Headers => headerBytes
      case _ => headerBytes + 2 + |body|
    }
  }

  const FRESH := Channel(RequestLine, "", "", "", "", map[], "", 0, true, 0, 0)

  // ---------- Request line ----------

  function SkipSpaces(s: string): (r: string)
    ensures |r| <= |s|
    ensures r != "" ==> !IsSpace(r[0])
  {
    if s != "" && IsSpace(s[0]) then SkipSpaces(s[1..]) else s
  }

  /** Length of the leading run of bytes that are not white space. */
  function TokenLength(s: string): (n: nat)
    ensures n <= |s|
    ensures n < |s| ==> IsSpace(s[n])
    ensures forall k | 0 <= k < n :: !IsSpace(s[k])
  {
    if s == "" || IsSpace(s[0]) then 0 else 1 + TokenLength(s[1..])
  }

  /** The stream extraction `>>` into a string: the token and what is left, or nothing. */
  function NextToken(s: string): Option<(string, string)> {
    var t := SkipSpaces(s);
    var n := TokenLength(t);
    if t == "" then None else Some((t[..n], t[n..]))
  }

  /** Splits a request target at its first '?'. */
  function SplitTarget(target: string): (string, string) {
    var q := IndexOf(target, '?');
    if q < |target| then (target[..q], target[q + 1..]) else (target, "")
  }

  /** Method, path and query; nothing after the version is looked at. */
  function ParseRequestLine(line: string): Option<(string, string, string)> {
    match NextToken(line)
    case None => None
    case Some((verb, afterMethod)) =>
      match NextToken(afterMethod)
      case None => None
      case Some((target, afterTarget)) =>
        match NextToken(afterTarget)
        case None => None
        case Some((version, _)) =>
          if version != "HTTP/1.1" then None
          else Some((verb, SplitTarget(target).0, SplitTarget(target).1))
  }

  // ---------- Header lines ----------

  function SkipBlanks(s: string): (r: string)
    ensures |r| <= |s|
    ensures r != "" ==> r[0] != ' ' && r[0] != '\t'
  {
    if s != "" && (s[0] == ' ' || s[0] == '\t') then SkipBlanks(s[1..]) else s
  }

  /** Value of the leading decimal digits of `s`, continuing from `acc`. */
  function DigitsValue(s: string, acc: nat): nat {
    if s == "" || !IsDigit(s[0]) then acc
    else DigitsValue(s[1..], 10 * acc + (s[0] as int - '0' as int))
  }

  /** `std::stoi` followed by the sign check: optional sign, digits, and any trailing text. */
  function ParseLength(value: string): (r: Option<nat>)
    ensures r.Some? ==> r.value <= INT_MAX
  {
    var s := SkipSpaces(value);
    var signed := s != "" && (s[0] == '-' || s[0] == '+');
    var digits := if signed then s[1..] else s;
    if digits == "" || !IsDigit(digits[0]) then None
    else
      var n := DigitsValue(digits, 0);
      if n > INT_MAX || (signed && s[0] == '-' && n > 0) then None else Some(n)
  }

  /** The body length that a request's headers announce: zero without a content-length, nothing if it is no number. */
  function AnnouncedLength(headers: map<string, string>): Option<nat> {
    if "content-length" in headers then ParseLength(headers["content-length"]) else Some(0)
  }

  function KeepAliveAfter(value: string, before: bool): bool {
    if Contains(Lower(value), "close") then false
    else if Contains(Lower(value), "keep-alive") then true
    else before
  }

  /** Records a header, and what the two headers the parser acts on say. */
  function ApplyHeader(ch: Channel, key: string, value: string): Option<Channel> {
    var recorded := ch.(headers := ch.headers[key := value]);
    if key == "content-length" then
      match ParseLength(value)
      case None => None
      case Some(n) => Some(recorded.(contentLength := n))
    else if key == "connection" then Some(recorded.(keepAlive := KeepAliveAfter(value, ch.keepAlive)))
    else Some(recorded)
  }

  /** Effect of one header line on the parser, or nothing when the line is malformed. */
  function ParseHeaderLine(ch: Channel, line: string): Option<Channel> {
    var colon := IndexOf(line, ':');
    if colon == |line| then None
    else
      var value := SkipBlanks(line[colon + 1..]);
      if value == "" then None else ApplyHeader(ch, Lower(line[..colon]), value)
  }

  // ---------- One parsing step ----------

  datatype Step =
    | Wait(ch: Channel, rest: string)
    | Go(ch: Channel, rest: string)
    | Reject(rest: string, events: seq<Event>)

  function OnRequestLine(ch: Channel, line: string, rest: string): Step {
    if |line| + 2 > MAX_HEADER_BYTES then Reject(rest, [Replied(431)])
    else
      match ParseRequestLine(line)
      case None => Reject(rest, [])
      case Some((verb, path, query)) =>
        Go(ch.(state := Headers, verb := verb, path := path, query := query, version := "HTTP/1.1",
               headerBytes := |line| + 2, headerCount := 0), rest)
  }

  function OnHeaderLine(ch: Channel, line: string, rest: string): Step {
    if line == "" then
      if !ch.WantsBody() then Go(ch.(state := Done), rest)
      else if ch.contentLength > MAX_BODY_BYTES then Reject(rest, [Replied(413)])
      else Go(ch.(state := Body), rest)
    else if ch.headerCount + 1 > MAX_HEADER_COUNT || ch.headerBytes + |line| + 2 > MAX_HEADER_BYTES then
      Reject(rest, [Replied(431)])
    else
      var counted := ch.(headerCount := ch.headerCount + 1, headerBytes := ch.headerBytes + |line| + 2);
      match ParseHeaderLine(counted, line)
      case None => Reject(rest, [Replied(400)])
      case Some(next) => Go(next, rest)
  }

  function OnBody(ch: Channel, buffer: string): Step
    requires ch.Valid() && ch.state.Body?
  {
    var need := ch.contentLength - |ch.body|;
    if |buffer| >= need then Go(ch.(state := Done, body := ch.body + buffer[..need]), buffer[need..])
    else Wait(ch.(body := ch.body + buffer), "")
  }

  function Advance(ch: Channel, buffer: string): Step
    requires ch.Ready()
  {
    if ch.state.Body? then OnBody(ch, buffer)
    else
      var i := FindCrlf(buffer);
      if i == |buffer| then Wait(ch, buffer)
      else if ch.state.RequestLine? then OnRequestLine(ch, buffer[..i], buffer[i + 2..])
      else OnHeaderLine(ch, buffer[..i], buffer[i + 2..])
  }

  lemma ApplyHeaderFrame(ch: Channel, key: string, value: string)
    requires ApplyHeader(ch, key, value).Some? && ch.contentLength <= INT_MAX && ch.Announced()
    ensures var next := ApplyHeader(ch, key, value).value;
            && next.contentLength <= INT_MAX && next.Announced()
            && next == ch.(headers := next.headers, contentLength := next.contentLength, keepAlive := next.keepAlive)
  {
    hide ParseLength, KeepAliveAfter;
  }

  /**
   A header line touches only the header map, the announced length and the keep-alive flag, and the
   length stays what the map says.
   */
  lemma HeaderLineFrame(ch: Channel, line: string)
    requires ParseHeaderLine(ch, line).Some? && ch.contentLength <= INT_MAX && ch.Announced()
    ensures var next := ParseHeaderLine(ch, line).value;
            && next.contentLength <= INT_MAX && next.Announced()
            && next == ch.(headers := next.headers, contentLength := next.contentLength, keepAlive := next.keepAlive)
  {
    hide ApplyHeader, Channel.Announced;
    ApplyHeaderFrame(ch, Lower(line[..IndexOf(line, ':')]), SkipBlanks(line[IndexOf(line, ':') + 1..]));
  }

  lemma BlankLineKeeps(ch: Channel, rest: string)
    requires ch.Valid() && ch.state.Headers?
    ensures var s := OnHeaderLine(ch, "", rest);
            && s.rest == rest && !s.Wait?
            && (s.Go? ==> s.ch.Valid() && s.ch.Taken() == ch.Taken() + 2)
  {
  }

  lemma HeaderKeeps(ch: Channel, next: Channel)
    requires ch.state.Headers? && ch.InLimits() && ch.body == "" && next.contentLength <= INT_MAX && next.Announced()
    requires next == ch.(headers := next.headers, contentLength := next.contentLength, keepAlive := next.keepAlive)
    ensures next.Valid() && next.Taken() == ch.headerBytes
  {
  }

  lemma HeaderStepKeeps(ch: Channel, line: string, rest: string)
    requires ch.Valid() && ch.state.Headers?
    ensures var s := OnHeaderLine(ch, line, rest);
            && s.rest == rest && !s.Wait?
            && (s.Go? ==> s.ch.Valid() && s.ch.Taken() == ch.Taken() + |line| + 2)
  {
    hide ParseHeaderLine, AnnouncedLength;
    var counted := ch.(headerCount := ch.headerCount + 1, headerBytes := ch.headerBytes + |line| + 2);
    if line == "" {
      BlankLineKeeps(ch, rest);
    } else if counted.InLimits() && ParseHeaderLine(counted, line).Some? {
      HeaderLineFrame(counted, line);
      HeaderKeeps(counted, ParseHeaderLine(counted, line).value);
    }
  }

  lemma BodyStepKeeps(ch: Channel, buffer: string)
    requires ch.Valid() && ch.state.Body?
    ensures var s := OnBody(ch, buffer);
            && !s.Reject?
            && |s.rest| <= |buffer| && s.rest == buffer[|buffer| - |s.rest|..]
            && s.ch.Valid() && (s.Wait? ==> s.ch.state.Body?) && (s.Go? ==> |s.rest| < |buffer|)
            && s.ch.Taken() + |s.rest| == ch.Taken() + |buffer|
  {
  }

  /** Each step keeps the invariant and accounts for every byte it takes. */
  lemma AdvanceKeeps(ch: Channel, buffer: string)
    requires ch.Ready()
    ensures var s := Advance(ch, buffer);
            && |s.rest| <= |buffer| && s.rest == buffer[|buffer| - |s.rest|..]
            && (s.Wait? ==> s.ch.Ready())
            && (s.Go? ==> s.ch.Valid() && |s.rest| < |buffer|)
            && (!s.Reject? ==> s.ch.Taken() + |s.rest| == ch.Taken() + |buffer|)
  {
    var i := FindCrlf(buffer);
    if ch.state.Body? {
      BodyStepKeeps(ch, buffer);
    } else if i < |buffer| && ch.state.Headers? {
      HeaderStepKeeps(ch, buffer[..i], buffer[i + 2..]);
    }
  }

  // ---------- Dispatch ----------

  datatype Verdict = Verdict(result: ProcessResult, events: seq<Event>)

  function HandleGet(w: World, r: Request): Verdict {
    if r.path == "/events" || ("accept" in r.headers && Contains(r.headers["accept"], "text/event-stream")) then
      Verdict(UpgradeSse, [])
    else
      var status := w.file(if r.path == "/" then "index.html" else r.path);
      Verdict(if status == 200 && r.keepAlive then Continue else Close, [Replied(status)])
  }

  function HandlePost(w: World, r: Request): Verdict {
    if r.path == "/v1/chat" then
      if w.chatBody(r.body) then Verdict(UpgradeSse, []) else Verdict(Close, [Replied(400)])
    else if r.path == "/" then
      Verdict(if r.keepAlive then Continue else Close, [Replied(200)])
    else
      Verdict(Close, [Replied(405)])
  }

  function Dispatch(w: World, r: Request): (v: Verdict)
    ensures !v.result.NeedMore?
  {
    if r.verb == "GET" then HandleGet(w, r)
    else if r.verb == "POST" then HandlePost(w, r)
    else Verdict(Close, [Replied(405)])
  }

  predicate AsksForEvents(r: Request) {
    r.verb == "GET"
    && (r.path == "/events" || ("accept" in r.headers && Contains(r.headers["accept"], "text/event-stream")))
  }

  predicate StartsChat(w: World, r: Request) {
    r.verb == "POST" && r.path == "/v1/chat" && w.chatBody(r.body)
  }

  /** The request is served with 200. */
  predicate IsServed(w: World, r: Request) {
    if r.verb == "GET" then w.file(if r.path == "/" then "index.html" else r.path) == 200
    else r.verb == "POST" && r.path == "/"
  }

  /**
   What becomes of a request: an event stream exactly for a GET that asks for one and a valid chat; a
   connection that goes on exactly for a served keep-alive request; a close for every other, with 405
   for what is not a GET, not a chat and not a POST to the root.
   */
  lemma WhatRequestsGet(w: World, r: Request)
    ensures var v := Dispatch(w, r);
            && (v.result.UpgradeSse? <==> AsksForEvents(r) || StartsChat(w, r))
            && (v.result.Continue? <==> r.keepAlive && IsServed(w, r) && !AsksForEvents(r))
            && (v.result.UpgradeSse? ==> v.events == [])
            && (!v.result.UpgradeSse? && IsServed(w, r) ==> v.events == [Replied(200)])
            && (r.verb != "GET" && (r.verb != "POST" || (r.path != "/" && r.path != "/v1/chat")) ==>
                  v.events == [Replied(405)])
            && (r.verb == "POST" && r.path == "/v1/chat" && !w.chatBody(r.body) ==> v.events == [Replied(400)])
  {
    assert "GET" != "POST" && "/" != "/v1/chat" by {
      assert "GET"[0] != "POST"[0] && |"/"| != |"/v1/chat"|;
    }
  }

  // ---------- One call of the parser ----------

  datatype Out = Out(ch: Channel, rest: string, events: seq<Event>, result: ProcessResult)

  function Finish(w: World, ch: Channel, rest: string): Out {
    var v := Dispatch(w, ch.ToRequest());
    Out(if v.result.Close? then ch else FRESH, rest,
        [Dispatched(ch.ToRequest(), ch.headerBytes, ch.headerCount)] + v.events, v.result)
  }

  function Consume(w: World, ch: Channel, buffer: string): Out
    requires ch.Valid()
    decreases |buffer|, if ch.state.Done? then 0 else 1
  {
    if ch.state.Done? then Finish(w, ch, buffer)
    else
      AdvanceKeeps(ch, buffer);
      match Advance(ch, buffer)
      case Wait(next, rest) => Out(next, rest, [], NeedMore)
      case Reject(rest, events) => Out(ch, rest, events, Close)
      case Go(next, rest) => Consume(w, next, rest)
  }

  /** Body bytes that a dispatched request took from the stream, with its blank line. */
  function EventBytes(events: seq<Event>): nat {
    if events == [] then 0
    else (match events[0]
          case Dispatched(r, n, _) => n + 2 + |r.body|
          case Replied(_) => 0)
         + EventBytes(events[1..])
  }

  /**
   A dispatched request stays within every limit, and its body has exactly the length that its headers
   announce if it is a POST, and is empty otherwise.
   */
  predicate WithinLimits(e: Event) {
    e.Dispatched? ==>
      && e.headBytes <= 8192
      && e.headerCount <= 100
      && |e.request.body| <= 1048576
      && AnnouncedLength(e.request.headers).Some?
      && |e.request.body| == if e.request.verb == "POST" then AnnouncedLength(e.request.headers).value else 0
  }

  /** What a call of the parser accounts for. */
  predicate Accounted(ch: Channel, buffer: string, o: Out) {
    && |o.rest| <= |buffer| && o.rest == buffer[|buffer| - |o.rest|..]
    && (forall e | e in o.events :: WithinLimits(e))
    && (o.result.NeedMore? ==> o.ch.Ready() && o.events == [])
    && (o.result.Continue? || o.result.UpgradeSse? ==> o.ch == FRESH && (ch.Ready() ==> |o.rest| < |buffer|))
    && (!o.result.Close? ==> EventBytes(o.events) + o.ch.Taken() + |o.rest| == ch.Taken() + |buffer|)
  }

  lemma {:induction false} RepliesTakeNothing(events: seq<Event>)
    requires forall e | e in events :: e.Replied?
    ensures EventBytes(events) == 0
  {
    if events != [] {
      assert events[0] in events;
      RepliesTakeNothing(events[1..]);
    }
  }

  lemma DispatchOnlyReplies(w: World, r: Request)
    ensures forall e | e in Dispatch(w, r).events :: e.Replied?
  {
  }

  lemma FirstEventTakes(e: Event, events: seq<Event>)
    requires e.Dispatched? && forall r | r in events :: r.Replied?
    ensures EventBytes([e] + events) == e.headBytes + 2 + |e.request.body|
  {
    assert ([e] + events)[1..] == events;
    RepliesTakeNothing(events);
  }

  lemma FinishAccounts(w: World, ch: Channel, rest: string)
    requires ch.Valid() && ch.state.Done?
    ensures Accounted(ch, rest, Finish(w, ch, rest))
  {
    DispatchOnlyReplies(w, ch.ToRequest());
    FirstEventTakes(Dispatched(ch.ToRequest(), ch.headerBytes, ch.headerCount), Dispatch(w, ch.ToRequest()).events);
  }

  lemma AccountsCompose(ch: Channel, buffer: string, next: Channel, rest: string, o: Out)
    requires |rest| < |buffer| && rest == buffer[|buffer| - |rest|..]
    requires next.Taken() + |rest| == ch.Taken() + |buffer|
    requires Accounted(next, rest, o)
    ensures Accounted(ch, buffer, o)
  {
    assert rest[|rest| - |o.rest|..] == buffer[|buffer| - |o.rest|..];
  }

  /**
   Every byte is accounted for: what a call leaves is the end of the buffer, what it took belongs to
   a dispatched request or is held by the parser, and a finished request leaves a fresh parser.
   */
  lemma {:induction false} ConsumeAccounts(w: World, ch: Channel, buffer: string)
    requires ch.Valid()
    ensures Accounted(ch, buffer, Consume(w, ch, buffer))
    decreases |buffer|, if ch.state.Done? then 0 else 1
  {
    if ch.state.Done? {
      FinishAccounts(w, ch, buffer);
    } else {
      AdvanceKeeps(ch, buffer);
      var s := Advance(ch, buffer);
      match s
      case Go(next, rest) =>
        ConsumeAccounts(w, next, rest);
        AccountsCompose(ch, buffer, next, rest, Consume(w, next, rest));
      case Wait(_, _) =>
      case Reject(_, events) =>
        RejectOnlyReplies(ch, buffer);
    }
  }

  lemma RejectOnlyReplies(ch: Channel, buffer: string)
    requires ch.Ready() && Advance(ch, buffer).Reject?
    ensures forall e | e in Advance(ch, buffer).events :: e.Replied?
  {
  }
}
