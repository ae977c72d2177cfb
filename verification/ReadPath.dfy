/**
 The read path of a connection: protocol detection and the loop that drives the chosen handler.
 A connection receives the client's byte stream in segments cut wherever TCP cut it; what it does
 must depend on the bytes only.
 */
module ReadPath {
  import opened Text
  import opened Limits
  import opened HttpParser
  import opened ProtocolHandlers
  import opened Lines
  import opened LineProtocol

  // ---------- The parser does not depend on the cut ----------

  lemma AdvanceStable(ch: Channel, a: string, b: string)
    requires ch.Ready()
    ensures var s := Advance(ch, a);
            match s
            case Go(next, rest) => Advance(ch, a + b) == Go(next, rest + b)
            case Reject(rest, events) => Advance(ch, a + b) == Reject(rest + b, events)
            case Wait(next, rest) => next.Ready() && Advance(ch, a + b) == Advance(next, rest + b)
  {
    if ch.state.Body? {
      BodyStable(ch, a, b);
    } else {
      var i := FindCrlf(a);
      if i < |a| {
        FindCrlfStable(a, b);
        assert (a + b)[..i] == a[..i];
        assert (a + b)[i + 2..] == a[i + 2..] + b;
        LineStepCarriesRest(ch, a[..i], a[i + 2..], b);
      }
    }
  }

  lemma BodyStable(ch: Channel, a: string, b: string)
    requires ch.Valid() && ch.state.Body?
    ensures match OnBody(ch, a)
            case Go(next, rest) => OnBody(ch, a + b) == Go(next, rest + b)
            case Wait(next, rest) => next.Valid() && next.state.Body? && OnBody(ch, a + b) == OnBody(next, rest + b)
            case Reject(_, _) => false
  {
    var need := ch.contentLength - |ch.body|;
    if |a| >= need {
      assert (a + b)[..need] == a[..need];
      assert (a + b)[need..] == a[need..] + b;
    } else {
      BodyGrows(ch, a, b);
    }
  }

  /** The body's bytes may come in two parts. */
  lemma BodyGrows(ch: Channel, a: string, b: string)
    requires ch.Valid() && ch.state.Body? && |a| < ch.contentLength - |ch.body|
    ensures OnBody(ch, a + b) == OnBody(ch.(body := ch.body + a), "" + b)
  {
    var need := ch.contentLength - |ch.body|;
    assert "" + b == b;
    if |a + b| >= need {
      assert (a + b)[..need] == a + b[..need - |a|];
      assert (a + b)[need..] == b[need - |a|..];
      Associative(ch.body, a, b[..need - |a|]);
    } else {
      Associative(ch.body, a, b);
    }
  }

  /** What a line does to the parser does not depend on the bytes behind it. */
  lemma LineStepCarriesRest(ch: Channel, line: string, rest: string, more: string)
    ensures WithMore(OnRequestLine(ch, line, rest), more) == OnRequestLine(ch, line, rest + more)
    ensures WithMore(OnHeaderLine(ch, line, rest), more) == OnHeaderLine(ch, line, rest + more)
  {
  }

  function WithMore(s: Step, more: string): Step {
    s.(rest := s.rest + more)
  }

  lemma {:induction false} ConsumeSplit(w: World, ch: Channel, a: string, b: string)
    requires ch.Valid()
    ensures var o := Consume(w, ch, a);
            if o.result.NeedMore? then o.ch.Ready() && Consume(w, ch, a + b) == Consume(w, o.ch, o.rest + b)
            else Consume(w, ch, a + b) == o.(rest := o.rest + b)
    decreases |a|, if ch.state.Done? then 0 else 1
  {
    if !ch.state.Done? {
      AdvanceStable(ch, a, b);
      AdvanceKeeps(ch, a);
      var s := Advance(ch, a);
      if s.Go? {
        ConsumeSplit(w, s.ch, s.rest, b);
      }
    }
  }

  // ---------- The driver loop ----------

  /** `PeerLeft` closes at once; `PeerDone` and `ReadFailed` ask for the close, after what is still to be sent. */
  datatype Ended = Open | HandlerClosed | UnknownProtocol | TooLarge | Upgraded | PeerLeft | PeerDone | ReadFailed

  /** Outcome of driving the HTTP handler over a buffer until it waits or the connection ends. */
  datatype Driven = Driven(ch: Channel, rest: string, events: seq<Event>, ended: Ended) {
    function After(earlier: seq<Event>): Driven {
      this.(events := earlier + events)
    }

    lemma AfterTwice(first: seq<Event>, second: seq<Event>)
      ensures After(second).After(first) == After(first + second)
    {
    }
  }

  function Drive(w: World, ch: Channel, buffer: string): Driven
    requires ch.Ready()
    decreases |buffer|
  {
    ConsumeAccounts(w, ch, buffer);
    var o := Consume(w, ch, buffer);
    match o.result
    case Close => Driven(FRESH, "", o.events, HandlerClosed)
    case UpgradeSse => Driven(FRESH, "", o.events, Upgraded)
    case NeedMore => Driven(o.ch, o.rest, o.events, Open)
    case Continue =>
      if o.rest == "" then Driven(FRESH, "", o.events, Open)
      else
        Drive(w, o.ch, o.rest).After(o.events)
  }

  lemma {:induction false} DriveKeepsReady(w: World, ch: Channel, buffer: string)
    requires ch.Ready()
    ensures var d := Drive(w, ch, buffer);
            d.ch.Ready() && (!d.ended.Open? ==> d.ch == FRESH && d.rest == "")
    decreases |buffer|
  {
    ConsumeAccounts(w, ch, buffer);
    var o := Consume(w, ch, buffer);
    if o.result.Continue? && o.rest != "" {
      DriveKeepsReady(w, o.ch, o.rest);
    }
  }

  /** Driving over `a` and then over `b` behind what was left is driving over `a + b`. */
  lemma {:induction false} DriveSplit(w: World, ch: Channel, a: string, b: string)
    requires ch.Ready()
    ensures var d := Drive(w, ch, a);
            && d.ch.Ready()
            && Drive(w, ch, a + b) == if d.ended.Open? then Drive(w, d.ch, d.rest + b).After(d.events) else d
    decreases |a|
  {
    hide Consume, Channel.Taken;
    DriveKeepsReady(w, ch, a);
    ConsumeAccounts(w, ch, a);
    ConsumeSplit(w, ch, a, b);
    var o := Consume(w, ch, a);
    match o.result
    case Continue =>
      if o.rest == "" {
        DriveOnNewRequest(w, ch, a, b);
      } else {
        DriveSplit(w, o.ch, o.rest, b);
        var d := Drive(w, o.ch, o.rest);
        Drive(w, d.ch, d.rest + b).AfterTwice(o.events, d.events);
      }
    case NeedMore =>
      assert Drive(w, o.ch, o.rest + b).After([]) == Drive(w, o.ch, o.rest + b);
    case _ =>
  }

  lemma DriveOnNewRequest(w: World, ch: Channel, a: string, b: string)
    requires ch.Ready() && Consume(w, ch, a).result.Continue? && Consume(w, ch, a).rest == ""
    ensures Drive(w, ch, a) == Driven(FRESH, "", Consume(w, ch, a).events, Open)
    ensures Drive(w, ch, a + b) == Drive(w, FRESH, "" + b).After(Consume(w, ch, a).events)
  {
    ConsumeAccounts(w, ch, a);
    ConsumeSplit(w, ch, a, b);
    assert "" + b == b;
    if b == "" {
      DriveNothing(w);
    }
  }

  lemma DriveNothing(w: World)
    ensures Drive(w, FRESH, "") == Driven(FRESH, "", [], Open)
  {
    assert Advance(FRESH, "") == Wait(FRESH, "");
  }

  /** Every byte the driver takes is accounted for by a dispatched request or the parser's state. */
  lemma {:induction false} DriveAccounts(w: World, ch: Channel, buffer: string)
    requires ch.Ready()
    ensures var d := Drive(w, ch, buffer);
            && (forall e | e in d.events :: WithinLimits(e))
            && (d.ended.Open? ==> EventBytes(d.events) + d.ch.Taken() + |d.rest| == ch.Taken() + |buffer|)
    decreases |buffer|
  {
    ConsumeAccounts(w, ch, buffer);
    var o := Consume(w, ch, buffer);
    if o.result.Continue? && o.rest != "" {
      DriveAccounts(w, o.ch, o.rest);
      EventBytesAppend(o.events, Drive(w, o.ch, o.rest).events);
    }
  }

  lemma {:induction false} EventBytesAppend(a: seq<Event>, b: seq<Event>)
    ensures EventBytes(a + b) == EventBytes(a) + EventBytes(b)
  {
    if a == [] {
      assert a + b == b;
    } else {
      assert (a + b)[1..] == a[1..] + b;
      EventBytesAppend(a[1..], b);
    }
  }

  // ---------- Every request gets its answer ----------

  /** A request, then its reply, then the next request: no reply is missing, doubled or out of turn. */
  predicate Answered(events: seq<Event>)
    decreases |events|
  {
    events != [] ==>
      |events| >= 2 && events[0].Dispatched? && events[1].Replied? && Answered(events[2..])
  }

  /** The parser's own refusals: too large a head or body, or a malformed header. */
  predicate IsRefusal(e: Event) {
    e == Replied(400) || e == Replied(413) || e == Replied(431)
  }

  /** How a call of the parser answers. */
  predicate AnswersAs(events: seq<Event>, result: ProcessResult) {
    match result
    case NeedMore => events == []
    case Continue =>
      |events| == 2 && events[0].Dispatched? && events[0].request.keepAlive && events[1] == Replied(200)
    case UpgradeSse => |events| == 1 && events[0].Dispatched?
    case Close =>
      (Answered(events) && |events| <= 2) || (|events| == 1 && IsRefusal(events[0]))
  }

  lemma {:induction false} ConsumeAnswers(w: World, ch: Channel, buffer: string)
    requires ch.Valid()
    ensures AnswersAs(Consume(w, ch, buffer).events, Consume(w, ch, buffer).result)
    decreases |buffer|, if ch.state.Done? then 0 else 1
  {
    if ch.state.Done? {
      var v := Dispatch(w, ch.ToRequest());
      var first := Dispatched(ch.ToRequest(), ch.headerBytes, ch.headerCount);
      assert !v.result.UpgradeSse? ==> |v.events| == 1 && ([first] + v.events)[2..] == [];
    } else {
      AdvanceKeeps(ch, buffer);
      var s := Advance(ch, buffer);
      if s.Go? {
        ConsumeAnswers(w, s.ch, s.rest);
      }
    }
  }

  /** How a connection's dispatches and replies look when it ended this way, or is still open. */
  predicate ServedAs(events: seq<Event>, ended: Ended) {
    match ended
    case Open => Answered(events)
    case Upgraded =>
      events != [] && events[|events| - 1].Dispatched? && Answered(events[..|events| - 1])
    case _ =>
      Answered(events)
      || (events != [] && IsRefusal(events[|events| - 1]) && Answered(events[..|events| - 1]))
  }

  lemma ServedBehind(first: Event, reply: Event, events: seq<Event>, ended: Ended)
    requires first.Dispatched? && reply.Replied? && ServedAs(events, ended)
    ensures ServedAs([first, reply] + events, ended)
  {
    var all := [first, reply] + events;
    assert all[2..] == events;
    if events != [] {
      assert all[..|all| - 1][2..] == events[..|events| - 1];
    }
  }

  /**
   Every dispatched request is answered by exactly one reply before the next one is looked at; only
   the last one may be handed on unanswered, to the event stream it asked for.
   */
  lemma {:induction false} EveryRequestIsAnswered(w: World, ch: Channel, buffer: string)
    requires ch.Ready()
    ensures ServedAs(Drive(w, ch, buffer).events, Drive(w, ch, buffer).ended)
    decreases |buffer|
  {
    ConsumeAccounts(w, ch, buffer);
    ConsumeAnswers(w, ch, buffer);
    var o := Consume(w, ch, buffer);
    if o.result.Continue? {
      assert o.events == [o.events[0], o.events[1]];
      if o.rest != "" {
        EveryRequestIsAnswered(w, o.ch, o.rest);
        ServedBehind(o.events[0], o.events[1], Drive(w, o.ch, o.rest).events, Drive(w, o.ch, o.rest).ended);
      }
    }
  }

  // ---------- Protocol detection ----------

  predicate LooksLikeHttp(buffer: string) {
    var lineEnd := FindCrlf(buffer);
    lineEnd < |buffer| &&
    match VersionField(buffer, lineEnd)
    case None => false
    case Some(version) => StartsWith(version, "HTTP/1.")
  }

  datatype Protocol = Unknown | CustomLine | Http

  datatype Detection = Undecided | Detected(protocol: Protocol) | Unrecognised

  function Detect(buffer: string): (d: Detection)
    ensures d.Detected? ==> !d.protocol.Unknown?
  {
    if StartsWith(buffer, "PING|") || StartsWith(buffer, "CHAT|") then Detected(CustomLine)
    else if LooksLikeHttp(buffer) then Detected(Http)
    else if FindCrlf(buffer) == |buffer| then Undecided
    else Unrecognised
  }

  /** The version field, if the request line has two spaces before its end. */
  function VersionField(buffer: string, lineEnd: nat): Option<string>
    requires lineEnd <= |buffer|
  {
    var sp1 := IndexOf(buffer, ' ');
    if sp1 == |buffer| || sp1 == 0 then None
    else
      var sp2 := sp1 + 1 + IndexOf(buffer[sp1 + 1..], ' ');
      if sp2 < lineEnd then Some(buffer[sp2 + 1..lineEnd]) else None
  }

  lemma VersionFieldStable(a: string, b: string, lineEnd: nat)
    requires lineEnd < |a|
    ensures VersionField(a + b, lineEnd) == VersionField(a, lineEnd)
  {
    IndexOfSplit(a, b, ' ');
    var sp1 := IndexOf(a, ' ');
    if 0 < sp1 < |a| {
      assert (a + b)[sp1 + 1..] == a[sp1 + 1..] + b;
      IndexOfSplit(a[sp1 + 1..], b, ' ');
      var sp2 := sp1 + 1 + IndexOf(a[sp1 + 1..], ' ');
      if sp2 < lineEnd {
        assert (a + b)[sp2 + 1..lineEnd] == a[sp2 + 1..lineEnd];
      }
    }
  }

  lemma LooksLikeHttpStable(a: string, b: string)
    requires FindCrlf(a) < |a|
    ensures LooksLikeHttp(a + b) == LooksLikeHttp(a)
  {
    FindCrlfStable(a, b);
    VersionFieldStable(a, b, FindCrlf(a));
  }

  /** A protocol, once decided, is what any longer prefix of the stream would decide. */
  lemma DetectStable(a: string, b: string)
    requires !Detect(a).Undecided?
    ensures Detect(a + b) == Detect(a)
  {
    if !StartsWith(a, "PING|") && !StartsWith(a, "CHAT|") {
      var i := FindCrlf(a);
      assert CrlfAt(a, i);
      assert (a + b)[i + 1] == '\n';
      if |a| < 5 {
        assert !StartsWith(a + b, "PING|") && !StartsWith(a + b, "CHAT|") by {
          assert "PING|"[i + 1] != '\n' && "CHAT|"[i + 1] != '\n';
        }
      } else {
        assert (a + b)[..5] == a[..5];
      }
      FindCrlfStable(a, b);
      LooksLikeHttpStable(a, b);
    }
  }

  // ---------- A connection ----------

  /** The read side of a connection; once it has ended nothing more is recorded of it. */
  datatype Connection = Connection(
    protocol: Protocol,
    channel: Channel,
    buffer: string,
    requests: seq<Event>,
    replies: seq<LineReply>,
    ended: Ended)
  {
    predicate Valid() {
      && channel.Ready()
      && (protocol.Unknown? ==> channel == FRESH && (ended.Open? ==> Detect(buffer).Undecided?))
      && (protocol.CustomLine? ==> channel == FRESH)
    }

    function End(how: Ended): Connection {
      this.(channel := FRESH, buffer := "", ended := how)
    }
  }

  const ACCEPTED := Connection(Unknown, FRESH, "", [], [], Open)

  /** Runs the handler of a connection whose protocol is known over its buffer. */
  function RunHandler(w: World, c: Connection): Connection
    requires c.channel.Ready()
  {
    match c.protocol
    case Unknown => c
    case CustomLine =>
      c.(buffer := Replies(c.buffer).1, replies := c.replies + Replies(c.buffer).0)
    case Http =>
      var d := Drive(w, c.channel, c.buffer);
      c.(channel := d.ch, buffer := d.rest, requests := c.requests + d.events, ended := d.ended)
  }

  /** Bytes arrive: they join the buffer, the protocol is decided if it can be, and the handler runs. */
  function Feed(w: World, c: Connection, segment: string): Connection
    requires c.Valid()
  {
    if !c.ended.Open? then c
    else
      var grown := c.(buffer := c.buffer + segment);
      if !c.protocol.Unknown? then RunHandler(w, grown)
      else
        match Detect(grown.buffer)
        case Undecided => grown
        case Unrecognised => grown.End(UnknownProtocol)
        case Detected(p) => RunHandler(w, grown.(protocol := p))
  }

  lemma RunHandlerKeeps(w: World, c: Connection)
    requires c.channel.Ready() && (c.protocol.CustomLine? ==> c.channel == FRESH) && !c.protocol.Unknown?
    ensures RunHandler(w, c).Valid()
  {
    if c.protocol.Http? {
      DriveKeepsReady(w, c.channel, c.buffer);
    }
  }

  lemma FeedKeeps(w: World, c: Connection, segment: string)
    requires c.Valid()
    ensures Feed(w, c, segment).Valid()
  {
    if c.ended.Open? {
      var grown := c.(buffer := c.buffer + segment);
      if !c.protocol.Unknown? {
        RunHandlerKeeps(w, grown);
      } else if Detect(grown.buffer).Detected? {
        RunHandlerKeeps(w, grown.(protocol := Detect(grown.buffer).protocol));
      }
    }
  }

  predicate Running(c: Connection) {
    c.channel.Ready() && !c.protocol.Unknown? && c.ended.Open? && (c.protocol.CustomLine? ==> c.channel == FRESH)
  }

  lemma HttpHandlerSplit(w: World, c: Connection, b: string)
    requires Running(c) && c.protocol.Http?
    ensures var r := RunHandler(w, c);
            && r.channel.Ready()
            && RunHandler(w, c.(buffer := c.buffer + b))
            == if r.ended.Open? then RunHandler(w, r.(buffer := r.buffer + b)) else r
  {
    DriveSplit(w, c.channel, c.buffer, b);
    var d := Drive(w, c.channel, c.buffer);
    if d.ended.Open? {
      Associative(c.requests, d.events, Drive(w, d.ch, d.rest + b).events);
    }
  }

  lemma LineHandlerSplit(w: World, c: Connection, b: string)
    requires Running(c) && c.protocol.CustomLine?
    ensures var r := RunHandler(w, c);
            RunHandler(w, c.(buffer := c.buffer + b)) == RunHandler(w, r.(buffer := r.buffer + b))
  {
    RepliesSplit(c.buffer, b);
    Associative(c.replies, Replies(c.buffer).0, Replies(Replies(c.buffer).1 + b).0);
  }

  lemma RunHandlerSplit(w: World, c: Connection, b: string)
    requires Running(c)
    ensures RunHandler(w, c).Valid()
    ensures Feed(w, RunHandler(w, c), b) == RunHandler(w, c.(buffer := c.buffer + b))
  {
    RunHandlerKeeps(w, c);
    if c.protocol.Http? {
      HttpHandlerSplit(w, c, b);
    } else {
      LineHandlerSplit(w, c, b);
    }
  }

  /** Two segments do what their concatenation does. */
  lemma FeedSplit(w: World, c: Connection, a: string, b: string)
    requires c.Valid()
    ensures Feed(w, c, a).Valid()
    ensures Feed(w, Feed(w, c, a), b) == Feed(w, c, a + b)
  {
    FeedKeeps(w, c, a);
    if c.ended.Open? {
      assert c.buffer + (a + b) == c.buffer + a + b;
      var grown := c.(buffer := c.buffer + a);
      if !c.protocol.Unknown? {
        RunHandlerSplit(w, grown, b);
      } else if !Detect(grown.buffer).Undecided? {
        DetectStable(grown.buffer, b);
        if Detect(grown.buffer).Detected? {
          RunHandlerSplit(w, grown.(protocol := Detect(grown.buffer).protocol), b);
        }
      }
    }
  }

  function FeedAll(w: World, c: Connection, segments: seq<string>): Connection
    requires c.Valid()
    decreases |segments|
  {
    if segments == [] then c
    else
      FeedKeeps(w, c, segments[0]);
      FeedAll(w, Feed(w, c, segments[0]), segments[1..])
  }

  /** Feeding a stream in pieces is feeding it at once. */
  lemma {:induction false} FeedAllIsFeed(w: World, c: Connection, segments: seq<string>)
    requires c.Valid() && segments != []
    ensures FeedAll(w, c, segments) == Feed(w, c, Concat(segments))
    decreases |segments|
  {
    var head, tail := segments[0], segments[1..];
    FeedKeeps(w, c, head);
    if tail == [] {
      assert head + "" == head;
    } else {
      FeedAllIsFeed(w, Feed(w, c, head), tail);
      FeedSplit(w, c, head, Concat(tail));
    }
  }

  /**
   Segmentation independence: whatever the cut, a fresh connection that received the same bytes
   has chosen the same handler, dispatched the same requests or lines in order and ended the same
   way, and while it is open it holds the same parser state and the same unread bytes.
   */
  lemma SegmentationIndependent(w: World, cut: seq<string>, recut: seq<string>)
    requires cut != [] && recut != []
    requires Concat(cut) == Concat(recut)
    ensures FeedAll(w, ACCEPTED, cut) == FeedAll(w, ACCEPTED, recut)
  {
    FeedAllIsFeed(w, ACCEPTED, cut);
    FeedAllIsFeed(w, ACCEPTED, recut);
  }

  // ---------- Which protocol a stream speaks ----------

  predicate IsHttpLine(line: string, verb: string, target: string, minor: string) {
    verb != "" && ' ' !in verb && ' ' !in target && line == verb + " " + (target + " " + ("HTTP/1." + minor))
  }

  /** A verb, a target without spaces, which may be empty, and a version 1 of HTTP. */
  ghost predicate SpeaksHttp(line: string) {
    exists verb, target, minor :: IsHttpLine(line, verb, target, minor)
  }

  predicate SpeaksLines(stream: string) {
    "PING|" <= stream || "CHAT|" <= stream
  }

  lemma FirstSpace(a: string, b: string)
    requires ' ' !in a
    ensures IndexOf(a + " " + b, ' ') == |a|
  {
    IndexOfSplit(a, " " + b, ' ');
    assert a + " " + b == a + (" " + b);
  }

  lemma HttpLineLooksLikeIt(line: string, rest: string, verb: string, target: string, minor: string)
    requires !HasCrlf(line) && IsHttpLine(line, verb, target, minor)
    ensures LooksLikeHttp(line + "\r\n" + rest)
  {
    hide IndexOf, FindCrlf;
    var stream, version := line + "\r\n" + rest, "HTTP/1." + minor;
    FindCrlfAfterLine(line, rest);
    var afterVerb := target + " " + (version + "\r\n" + rest);
    assert stream == verb + " " + afterVerb;
    FirstSpace(verb, afterVerb);
    assert stream[|verb| + 1..] == afterVerb;
    FirstSpace(target, version + "\r\n" + rest);
    assert stream[|verb| + 1 + |target| + 1..|line|] == version;
  }

  lemma CutAtSpaces(line: string, i: nat, j: nat)
    requires i < j < |line| && line[i] == ' ' && line[j] == ' '
    ensures line == line[..i] + " " + (line[i + 1..j] + " " + line[j + 1..])
  {
  }

  lemma LooksLikeHttpLine(line: string, rest: string)
    requires !HasCrlf(line) && LooksLikeHttp(line + "\r\n" + rest)
    ensures SpeaksHttp(line)
  {
    hide IndexOf, FindCrlf, HasCrlf;
    var stream := line + "\r\n" + rest;
    FindCrlfAfterLine(line, rest);
    var sp1 := IndexOf(stream, ' ');
    var sp2 := sp1 + 1 + IndexOf(stream[sp1 + 1..], ' ');
    var verb, target, version := line[..sp1], line[sp1 + 1..sp2], line[sp2 + 1..];
    assert stream[..sp1] == verb && stream[sp1 + 1..][..sp2 - sp1 - 1] == target;
    assert stream[sp2 + 1..|line|] == version;
    var minor := version[7..];
    assert version == "HTTP/1." + minor;
    assert line[sp1] == stream[sp1] && line[sp2] == stream[sp2] == stream[sp1 + 1..][sp2 - sp1 - 1];
    CutAtSpaces(line, sp1, sp2);
    assert IsHttpLine(line, verb, target, minor);
  }

  lemma DetectDecides(line: string, rest: string)
    requires !HasCrlf(line)
    ensures var stream := line + "\r\n" + rest;
            Detect(stream) ==
            if SpeaksLines(stream) then Detected(CustomLine)
            else if SpeaksHttp(line) then Detected(Http) else Unrecognised
  {
    hide LooksLikeHttp, SpeaksHttp, FindCrlf, IsHttpLine;
    FindCrlfAfterLine(line, rest);
    if LooksLikeHttp(line + "\r\n" + rest) {
      LooksLikeHttpLine(line, rest);
    }
    SpeakingLooksLikeIt(line, rest);
  }

  lemma SpeakingLooksLikeIt(line: string, rest: string)
    requires !HasCrlf(line)
    ensures SpeaksHttp(line) ==> LooksLikeHttp(line + "\r\n" + rest)
  {
    hide LooksLikeHttp, IsHttpLine;
    if SpeaksHttp(line) {
      var verb, target, minor :| IsHttpLine(line, verb, target, minor);
      HttpLineLooksLikeIt(line, rest, verb, target, minor);
    }
  }

  lemma AcceptedIsValid()
    ensures ACCEPTED.Valid()
  {
  }

  /**
   Which protocol a connection speaks is a matter of its first bytes, however they are cut: the line
   protocol exactly if they are PING| or CHAT|, HTTP exactly if otherwise the first line is one of HTTP, and
   nothing while there is no first line. A stream that starts with any other line is given up unanswered.
   */
  lemma FirstLineDecides(w: World, line: string, rest: string, cut: seq<string>)
    requires cut != [] && Concat(cut) == line + "\r\n" + rest && !HasCrlf(line)
    ensures var c := FeedAll(w, ACCEPTED, cut);
            && (c.protocol.CustomLine? <==> SpeaksLines(Concat(cut)))
            && (c.protocol.Http? <==> !SpeaksLines(Concat(cut)) && SpeaksHttp(line))
            && (c.ended.UnknownProtocol? <==> !SpeaksLines(Concat(cut)) && !SpeaksHttp(line))
            && (c.ended.UnknownProtocol? ==> c.requests == [] && c.replies == [])
  {
    hide FeedAll, Drive, Replies, Detect, SpeaksLines, SpeaksHttp, Concat;
    AcceptedIsValid();
    FeedAllIsFeed(w, ACCEPTED, cut);
    var stream := Concat(cut);
    assert "" + stream == stream;
    DetectDecides(line, rest);
    DriveKnowsItsProtocol(w, FRESH, stream);
  }

  lemma {:induction false} DriveKnowsItsProtocol(w: World, ch: Channel, buffer: string)
    requires ch.Ready()
    ensures !Drive(w, ch, buffer).ended.UnknownProtocol?
    decreases |buffer|
  {
    ConsumeAccounts(w, ch, buffer);
    var o := Consume(w, ch, buffer);
    if o.result.Continue? && o.rest != "" {
      DriveKnowsItsProtocol(w, o.ch, o.rest);
    }
  }

  /** Before the first line is complete only the line protocol can be known. */
  lemma UnfinishedLineWaits(w: World, cut: seq<string>)
    requires cut != [] && !HasCrlf(Concat(cut))
    ensures var c := FeedAll(w, ACCEPTED, cut);
            if SpeaksLines(Concat(cut)) then c.protocol.CustomLine?
            else c == ACCEPTED.(buffer := Concat(cut))
  {
    hide FeedAll;
    FeedAllIsFeed(w, ACCEPTED, cut);
    assert "" + Concat(cut) == Concat(cut);
  }

  function AnswersTo(ms: seq<Message>): (r: seq<LineReply>)
    ensures |r| == |ms|
  {
    seq(|ms|, i requires 0 <= i < |ms| => Answer(ms[i]))
  }

  lemma FirstLineBytes(w: World, stream: string)
    requires StartsWith(stream, "PING|") || StartsWith(stream, "CHAT|")
    ensures Feed(w, ACCEPTED, stream) ==
            Connection(CustomLine, FRESH, Replies(stream).1, [], Replies(stream).0, Open)
  {
    hide Replies, StartsWith, LooksLikeHttp;
    assert "" + stream == stream;
    assert [] + Replies(stream).0 == Replies(stream).0;
  }

  lemma StreamStarts(m: Message, cr: bool, rest: seq<string>)
    requires m.kind == "PING" || m.kind == "CHAT"
    ensures var stream := Terminated([PrintMessage(m, cr)] + rest);
            StartsWith(stream, "PING|") || StartsWith(stream, "CHAT|")
  {
    assert ([PrintMessage(m, cr)] + rest)[1..] == rest;
    assert m.kind + "|" <= PrintMessage(m, cr);
    assert "PING" + "|" == "PING|" && "CHAT" + "|" == "CHAT|";
  }

  /**
   However TCP cuts a stream of line-protocol messages that starts with a PING or a CHAT, a fresh
   connection takes it for the line protocol and answers every message once, in order.
   */
  lemma MessagesInAnyCut(w: World, ms: seq<Message>, cr: bool, cut: seq<string>)
    requires ms != [] && (ms[0].kind == "PING" || ms[0].kind == "CHAT") && forall m | m in ms :: Printable(m)
    requires cut != [] && Concat(cut) == Terminated(PrintMessages(ms, cr))
    ensures var c := FeedAll(w, ACCEPTED, cut);
            c.protocol.CustomLine? && c.ended.Open? && c.buffer == "" && c.replies == AnswersTo(ms)
  {
    hide Feed, FeedAll, Concat, Terminated;
    FeedAllIsFeed(w, ACCEPTED, cut);
    var lines := PrintMessages(ms, cr);
    assert lines == [PrintMessage(ms[0], cr)] + lines[1..];
    StreamStarts(ms[0], cr, lines[1..]);
    FirstLineBytes(w, Concat(cut));
    MessagesAreAnswered(ms, cr);
  }

  // ---------- The end of reading ----------

  /** Why a readable event stopped reading. */
  datatype Stop = WouldBlock | PeerClosed | ReadError

  /** The driver's last call of the HTTP handler finished a request with nothing left behind it. */
  predicate LastContinued(w: World, ch: Channel, buffer: string)
    requires ch.Ready()
    decreases |buffer|
  {
    ConsumeAccounts(w, ch, buffer);
    var o := Consume(w, ch, buffer);
    o.result.Continue? && (o.rest == "" || LastContinued(w, o.ch, o.rest))
  }

  /** The same of either handler, once one is chosen. */
  predicate Finished(w: World, c: Connection, segment: string)
    requires c.Valid()
  {
    var buffer := c.buffer + segment;
    var protocol := if c.protocol.Unknown? && Detect(buffer).Detected? then Detect(buffer).protocol else c.protocol;
    match protocol
    case Unknown => false
    case CustomLine => Replies(buffer).1 == ""
    case Http => LastContinued(w, c.channel, buffer)
  }

  /**
   A readable event and how its reading stopped. A read error is forgotten while the protocol is
   undecided, and by a handler that finishes what there is.
   */
  function ReadEvent(w: World, c: Connection, segment: string, stop: Stop): Connection
    requires c.Valid()
  {
    if !c.ended.Open? then c
    else if |c.buffer| + |segment| <= MAX_READ_BUFFER && stop.PeerClosed? && c.buffer + segment == "" then
      c.End(PeerLeft)
    else
      var r := Receive(w, c, segment);
      if !r.ended.Open? then r
      else
        match stop
        case WouldBlock => r
        case PeerClosed => r.End(PeerDone)
        case ReadError => if r.protocol.Unknown? || Finished(w, c, segment) then r else r.End(ReadFailed)
  }

  /** However reading stops, what had arrived is handled as if more could follow. */
  lemma StopKeepsWork(w: World, c: Connection, segment: string, stop: Stop)
    requires c.Valid()
    ensures var r, e := Receive(w, c, segment), ReadEvent(w, c, segment, stop);
            && e.requests == r.requests && e.replies == r.replies && (stop.WouldBlock? ==> e == r)
            && (!r.ended.Open? ==> e.ended == r.ended) && (stop.PeerClosed? ==> !e.ended.Open?)
  {
    if c.ended.Open? && c.buffer + segment == "" {
      NothingToHandle(w, c);
    }
  }

  /** The driver finished a request with its last byte exactly when it is between two requests and dispatched one. */
  lemma {:induction false} LastContinuedIsBetween(w: World, ch: Channel, buffer: string)
    requires ch.Ready()
    ensures var d := Drive(w, ch, buffer);
            LastContinued(w, ch, buffer) <==> d.ended.Open? && d.ch == FRESH && d.rest == "" && d.events != []
    decreases |buffer|
  {
    hide Consume;
    ConsumeAccounts(w, ch, buffer);
    ConsumeAnswers(w, ch, buffer);
    var o := Consume(w, ch, buffer);
    if o.result.Continue? && o.rest != "" {
      LastContinuedIsBetween(w, o.ch, o.rest);
      ConsumeAccounts(w, o.ch, o.rest);
      var next := Consume(w, o.ch, o.rest);
      assert next.result.NeedMore? && next.ch == FRESH ==> |next.rest| == |o.rest|;
    }
  }

  /**
   How a readable event ends an open connection: a peer that closed leaves it at once when it never sent
   anything, and otherwise asks for the close; a read error does so unless it met an unknown protocol, or
   every byte was taken by finished lines or requests.
   */
  lemma StopEnds(w: World, c: Connection, segment: string)
    requires c.Valid() && c.ended.Open? && Receive(w, c, segment).ended.Open?
    ensures ReadEvent(w, c, segment, PeerClosed).ended == if c.buffer + segment == "" then PeerLeft else PeerDone
    ensures var r, e := Receive(w, c, segment), ReadEvent(w, c, segment, ReadError);
            && (e.ended.Open? || e.ended.ReadFailed?)
            && (e.ended.Open? <==>
                  || r.protocol.Unknown?
                  || (r.protocol.CustomLine? && r.buffer == "")
                  || (r.protocol.Http? && r.buffer == "" && r.channel == FRESH && r.requests != c.requests))
  {
    FinishedIs(w, c, segment);
    hide Finished, Feed;
  }

  /** What a handler that finished leaves behind. */
  lemma FinishedIs(w: World, c: Connection, segment: string)
    requires c.Valid() && c.ended.Open? && Feed(w, c, segment).ended.Open?
    ensures var r := Feed(w, c, segment);
            !r.protocol.Unknown? ==>
              (Finished(w, c, segment) <==>
                 || (r.protocol.CustomLine? && r.buffer == "")
                 || (r.protocol.Http? && r.buffer == "" && r.channel == FRESH && r.requests != c.requests))
  {
    hide Drive, Replies, LastContinued, Detect;
    var grown := c.buffer + segment;
    if c.protocol.Http? || (c.protocol.Unknown? && Detect(grown).Detected?) {
      LastContinuedIsBetween(w, c.channel, grown);
    }
  }

  lemma NothingToHandle(w: World, c: Connection)
    requires c.Valid() && c.ended.Open? && c.buffer == ""
    ensures Feed(w, c, "").requests == c.requests && Feed(w, c, "").replies == c.replies && Feed(w, c, "").ended.Open?
  {
    assert "" + "" == "";
    assert Replies("").0 == [] && c.replies + [] == c.replies;
    if c.protocol.Http? {
      assert FindCrlf("") == 0;
      var o := Consume(w, c.channel, "");
      AdvanceKeeps(c.channel, "");
      assert o.result.NeedMore? && o.events == [];
      assert c.requests + [] == c.requests;
    }
  }

  // ---------- The bound on the read buffer ----------


  /** One readable event: as `Feed`, but a buffer that grows over the limit closes the connection. */
  function Receive(w: World, c: Connection, segment: string): Connection
    requires c.Valid()
  {
    if c.ended.Open? && |c.buffer| + |segment| > MAX_READ_BUFFER then c.End(TooLarge) else Feed(w, c, segment)
  }

  lemma ReceiveKeeps(w: World, c: Connection, segment: string)
    requires c.Valid()
    ensures Receive(w, c, segment).Valid()
  {
    FeedKeeps(w, c, segment);
  }

  lemma ReadEventKeeps(w: World, c: Connection, segment: string, stop: Stop)
    requires c.Valid()
    ensures ReadEvent(w, c, segment, stop).Valid()
  {
    ReceiveKeeps(w, c, segment);
  }

  function ReceiveAll(w: World, c: Connection, segments: seq<string>): Connection
    requires c.Valid()
    decreases |segments|
  {
    if segments == [] then c
    else
      ReceiveKeeps(w, c, segments[0]);
      ReceiveAll(w, Receive(w, c, segments[0]), segments[1..])
  }

  /** No segment finds so many bytes still buffered that it would pass the limit. */
  predicate NeverTooLarge(w: World, c: Connection, segments: seq<string>)
    requires c.Valid()
    decreases |segments|
  {
    segments != [] ==>
      && (c.ended.Open? ==> |c.buffer| + |segments[0]| <= 2097152)
      && (FeedKeeps(w, c, segments[0]); NeverTooLarge(w, Feed(w, c, segments[0]), segments[1..]))
  }

  lemma {:induction false} FeedNeverTooLarge(w: World, c: Connection, segments: seq<string>)
    requires c.Valid() && !c.ended.TooLarge?
    ensures !FeedAll(w, c, segments).ended.TooLarge?
    decreases |segments|
  {
    if segments != [] {
      FeedKeeps(w, c, segments[0]);
      DriveNeverTooLarge(w, c.channel, c.buffer + segments[0]);
      FeedNeverTooLarge(w, Feed(w, c, segments[0]), segments[1..]);
    }
  }

  lemma {:induction false} DriveNeverTooLarge(w: World, ch: Channel, buffer: string)
    requires ch.Ready()
    ensures !Drive(w, ch, buffer).ended.TooLarge?
    decreases |buffer|
  {
    ConsumeAccounts(w, ch, buffer);
    var o := Consume(w, ch, buffer);
    if o.result.Continue? && o.rest != "" {
      DriveNeverTooLarge(w, o.ch, o.rest);
    }
  }

  /** A connection that ended stays as it is. */
  lemma {:induction false} EndedStays(w: World, c: Connection, segments: seq<string>)
    requires c.Valid() && !c.ended.Open?
    ensures ReceiveAll(w, c, segments) == c
    decreases |segments|
  {
    if segments != [] {
      EndedStays(w, c, segments[1..]);
    }
  }

  /** The bounded connection does what the stream asks for exactly when no segment passes the buffer limit. */
  lemma {:induction false} LimitIsTheOnlyDifference(w: World, c: Connection, segments: seq<string>)
    requires c.Valid() && !c.ended.TooLarge?
    ensures ReceiveAll(w, c, segments) == FeedAll(w, c, segments) <==> NeverTooLarge(w, c, segments)
    decreases |segments|
  {
    if segments != [] {
      var s := segments[0];
      FeedKeeps(w, c, s);
      if c.ended.Open? && |c.buffer| + |s| > MAX_READ_BUFFER {
        EndedStays(w, c.End(TooLarge), segments[1..]);
        FeedNeverTooLarge(w, c, segments);
      } else {
        DriveNeverTooLarge(w, c.channel, c.buffer + s);
        LimitIsTheOnlyDifference(w, Feed(w, c, s), segments[1..]);
      }
    }
  }

  /** Any two cuts of a stream that respect the limit agree. */
  lemma CutsWithinLimitAgree(w: World, cut: seq<string>, recut: seq<string>)
    requires cut != [] && recut != [] && Concat(cut) == Concat(recut)
    requires NeverTooLarge(w, ACCEPTED, cut) && NeverTooLarge(w, ACCEPTED, recut)
    ensures ReceiveAll(w, ACCEPTED, cut) == ReceiveAll(w, ACCEPTED, recut)
  {
    LimitIsTheOnlyDifference(w, ACCEPTED, cut);
    LimitIsTheOnlyDifference(w, ACCEPTED, recut);
    SegmentationIndependent(w, cut, recut);
  }

  /** What a handler leaves in the buffer was there before. */
  lemma {:induction false} DriveShrinks(w: World, ch: Channel, buffer: string)
    requires ch.Ready()
    ensures |Drive(w, ch, buffer).rest| <= |buffer|
    decreases |buffer|
  {
    ConsumeAccounts(w, ch, buffer);
    var o := Consume(w, ch, buffer);
    if o.result.Continue? && o.rest != "" {
      DriveShrinks(w, o.ch, o.rest);
    }
  }

  lemma SplitShrinks(buffer: string)
    ensures |Replies(buffer).1| <= |buffer|
  {
    assert |SplitLines(buffer).1| <= |buffer|;
  }

  lemma FeedShrinks(w: World, c: Connection, segment: string)
    requires c.Valid()
    ensures |Feed(w, c, segment).buffer| <= |c.buffer| + |segment|
  {
    DriveShrinks(w, c.channel, c.buffer + segment);
    SplitShrinks(c.buffer + segment);
  }

  /** A stream that is no longer than the buffer may be, with what is buffered already, never passes the limit. */
  lemma {:induction false} ShortStreamsFit(w: World, c: Connection, segments: seq<string>)
    requires c.Valid() && |c.buffer| + |Concat(segments)| <= MAX_READ_BUFFER
    ensures NeverTooLarge(w, c, segments)
    decreases |segments|
  {
    if segments != [] {
      FeedKeeps(w, c, segments[0]);
      FeedShrinks(w, c, segments[0]);
      ShortStreamsFit(w, Feed(w, c, segments[0]), segments[1..]);
    }
  }

  /** So a stream of at most 2 MB is treated the same by the bounded connection however it is cut. */
  lemma ShortStreamsAgree(w: World, cut: seq<string>, recut: seq<string>)
    requires cut != [] && recut != [] && Concat(cut) == Concat(recut) && |Concat(cut)| <= 2097152
    ensures ReceiveAll(w, ACCEPTED, cut) == ReceiveAll(w, ACCEPTED, recut)
  {
    ShortStreamsFit(w, ACCEPTED, cut);
    ShortStreamsFit(w, ACCEPTED, recut);
    CutsWithinLimitAgree(w, cut, recut);
  }

  lemma PingIsAnswered(w: World)
    ensures var c := Feed(w, ACCEPTED, "PING|\n");
            c.ended.Open? && c.buffer == "" && c.protocol.CustomLine? && |c.replies| == 1
  {
    hide Feed, Replies;
    assert Terminated(["PING|"]) == "PING|\n";
    OneReplyPerLine(["PING|"]);
    FirstLineBytes(w, "PING|\n");
  }

  /** The limit is on the bytes of one readable event, so a cut can matter: this stream is refused or accepted. */
  lemma LargeBurstDependsOnCut(w: World, flood: string)
    requires |flood| == 2097152
    ensures ReceiveAll(w, ACCEPTED, ["PING|\n" + flood]).ended.TooLarge?
    ensures ReceiveAll(w, ACCEPTED, ["PING|\n", flood]).ended.Open?
  {
    var ping := "PING|\n";
    assert ReceiveAll(w, ACCEPTED, [ping + flood]) == Receive(w, ACCEPTED, ping + flood);
    PingIsAnswered(w);
    var c := Receive(w, ACCEPTED, ping);
    ReceiveKeeps(w, ACCEPTED, ping);
    ReceiveKeeps(w, c, flood);
    assert [ping, flood][1..] == [flood];
    assert ReceiveAll(w, c, [flood]) == Receive(w, c, flood);
  }
}
