/**
 From a parsed request to its client: the bytes of each reply, the sends they go out in, and a client
 that separates the replies on its connection by their Content-Length, after section 6 of RFC 9112.
 */
module HttpReplies {
  import opened Text
  import opened HttpParser
  import opened HttpRoundTrip
  import opened ProtocolHandlers
  import opened ReadPath
  import W = WritePath

  // ---------- The bytes of a reply ----------

  /** Position of the last dot, or the length when there is none. */
  function LastDot(name: string): (i: nat)
    ensures i <= |name|
    ensures i < |name| ==> name[i] == '.' && '.' !in name[i + 1..]
    ensures i == |name| ==> '.' !in name
  {
    if name == "" then 0
    else
      var n := |name| - 1;
      if name[n] == '.' then n
      else
        var i := LastDot(name[..n]);
        assert name[i..] == name[..n][i..] + [name[n]];
        assert name == name[..n] + [name[n]];
        if i == n then |name| else i
  }

  function MimeType(name: string): string {
    var dot := LastDot(name);
    if dot == |name| then "application/octet-stream" else MimeOf(name[dot..])
  }

  function MimeOf(extension: string): string {
    if extension == ".html" then "text/html"
    else if extension == ".css" then "text/css"
    else if extension == ".js" then "application/javascript"
    else if extension == ".png" then "image/png"
    else if extension == ".jpg" then "image/jpeg"
    else if extension == ".txt" then "text/plain"
    else "application/octet-stream"
  }

  /** The files that are served, by the path that asks for them: their contents, and their names on disk. */
  datatype Site = Site(content: string -> string, name: string -> string)

  function ReasonPhrase(status: nat): string {
    if status == 200 then "OK"
    else if status == 400 then "Bad Request"
    else if status == 403 then "Forbidden"
    else if status == 404 then "Not Found"
    else if status == 405 then "Method Not Allowed"
    else if status == 413 then "Payload Too Large"
    else if status == 431 then "Request Header Fields Too Large"
    else if status == 500 then "Internal Server Error"
    else "Error"
  }

  function StatusLine(status: nat): string {
    "HTTP/1.1 " + (Decimal(status) + (" " + ReasonPhrase(status)))
  }

  /** The header lines and the blank line behind them. */
  function FieldLines(fields: seq<Header>): string {
    if fields == [] then "\r\n" else fields[0].Line() + "\r\n" + FieldLines(fields[1..])
  }

  /**
   A reply, and whether the connection is kept after it; a file goes out in blocks behind its head,
   anything else at once.
   */
  datatype Reply = Reply(status: nat, fields: seq<Header>, body: string, keep: bool, inBlocks: bool) {
    function Head(): string {
      StatusLine(status) + "\r\n" + FieldLines(fields)
    }

    function Print(): string {
      Head() + body
    }

    function Parts(): seq<string> {
      if inBlocks then [Head()] + Blocks(body) else [Print()]
    }
  }

  const BLOCK: nat := 65536

  function Blocks(content: string): seq<string> {
    if content == "" then []
    else if |content| <= BLOCK then [content]
    else [content[..BLOCK]] + Blocks(content[BLOCK..])
  }

  function ContentType(value: string): Header {
    Header("Content-Type", value)
  }

  function ContentLength(body: string): Header {
    Header("Content-Length", Decimal(|body|))
  }

  function ConnectionField(name: string, keep: bool): Header {
    Header(name, if keep then "keep-alive" else "close")
  }

  function ErrorPage(status: nat): Reply {
    var body := "<h1>" + ReasonPhrase(status) + "</h1>";
    Reply(status, [ContentLength(body), ConnectionField("Connection", false)], body, false, false)
  }

  function NotAllowed(): Reply {
    var body := "<h1>Method Not Allowed</h1>";
    Reply(405, [Header("Allow", "GET, POST"), ContentType("text/html"), ContentLength(body),
                ConnectionField("Connection", false)], body, false, false)
  }

  function FilePath(r: Request): string {
    if r.path == "/" then "index.html" else r.path
  }

  function File(site: Site, r: Request): Reply {
    var body := site.content(FilePath(r));
    Reply(200, [ContentType(MimeType(site.name(FilePath(r)))), ContentLength(body),
                ConnectionField("connection", r.keepAlive)], body, r.keepAlive, true)
  }

  function Echo(r: Request): Reply {
    var body := "Receive body: " + r.body;
    Reply(200, [ContentType("text/plain"), ContentLength(body), ConnectionField("Connection", r.keepAlive)],
          body, r.keepAlive, false)
  }

  /** The reply to a request that got this status. */
  function ReplyTo(site: Site, r: Request, status: nat): Reply {
    if r.verb == "GET" then if status == 200 then File(site, r) else ErrorPage(status)
    else if status == 200 then Echo(r)
    else if status == 405 then NotAllowed()
    else ErrorPage(status)
  }

  /** What a connection replies: to each request its reply, and to what it refuses an error page. */
  function RepliesTo(site: Site, events: seq<Event>): seq<Reply> {
    if events == [] then []
    else if events[0].Replied? then [ErrorPage(events[0].status)] + RepliesTo(site, events[1..])
    else if |events| > 1 && events[1].Replied? then
      [ReplyTo(site, events[0].request, events[1].status)] + RepliesTo(site, events[2..])
    else RepliesTo(site, events[1..])
  }

  // ---------- A client ----------

  /**
   What a client reads: status and reason, the type of the body and the methods allowed, if they were
   given, the body, and whether it was told that the connection closes.
   */
  datatype Answer = Answer(status: nat, reason: string, kind: string, allow: string, body: string, closes: bool)

  datatype Noted = Noted(length: Option<nat>, closes: bool, kind: string, allow: string)

  const NOTHING_NOTED := Noted(None, false, "", "")

  function NoteHeader(name: string, value: string, n: Noted): Noted {
    if name == "content-length" && forall i | 0 <= i < |value| :: IsDigit(value[i]) then
      n.(length := Some(DigitsValue(value, 0)))
    else if name == "connection" then n.(closes := n.closes || Contains(Lower(value), "close"))
    else if name == "content-type" then n.(kind := value)
    else if name == "allow" then n.(allow := value)
    else n
  }

  function NoteLine(line: string, n: Noted): Noted {
    var colon := IndexOf(line, ':');
    if colon == |line| then n else NoteHeader(Lower(line[..colon]), SkipBlanks(line[colon + 1..]), n)
  }

  /** Reads header lines up to the blank line, or nothing if there is none yet. */
  function ReadFields(s: string, n: Noted): (r: Option<(Noted, string)>)
    ensures r.Some? ==> |r.value.1| < |s|
    decreases |s|
  {
    var i := FindCrlf(s);
    if i == |s| then None
    else if i == 0 then Some((n, s[2..]))
    else ReadFields(s[i + 2..], NoteLine(s[..i], n))
  }

  /** Reads one reply that announces its length, or nothing while it is not complete. */
  function ReadReply(s: string): (r: Option<(Answer, string)>)
    ensures r.Some? ==> |r.value.1| < |s|
  {
    var i := FindCrlf(s);
    if i == |s| || !StartsWith(s[..i], "HTTP/1.1 ") then None
    else
      var fields := ReadFields(s[i + 2..], NOTHING_NOTED);
      if fields.None? then None
      else
        var (noted, rest) := fields.value;
        if noted.length.None? || |rest| < noted.length.value then None
        else
          var (status, reason) := ReadStatus(s[9..i]);
          Some((Answer(status, reason, noted.kind, noted.allow, rest[..noted.length.value], noted.closes),
                rest[noted.length.value..]))
  }

  /** Status and reason, which a blank separates. */
  function ReadStatus(s: string): (nat, string) {
    var blank := IndexOf(s, ' ');
    (DigitsValue(s, 0), if blank < |s| then s[blank + 1..] else "")
  }

  /** Reads as many replies as there are, and what is left. */
  function ReadAll(s: string): (seq<Answer>, string)
    decreases |s|
  {
    match ReadReply(s)
    case None => ([], s)
    case Some((answer, rest)) =>
      var (answers, left) := ReadAll(rest);
      ([answer] + answers, left)
  }

  // ---------- The client reads what was sent ----------

  /** What the header lines say to the client. */
  function NoteAll(fields: seq<Header>, n: Noted): Noted {
    if fields == [] then n else NoteAll(fields[1..], NoteHeader(fields[0].Key(), fields[0].value, n))
  }

  lemma {:induction false} FieldsAreRead(fields: seq<Header>, rest: string, n: Noted)
    requires forall h | h in fields :: h.WellFormed()
    ensures ReadFields(FieldLines(fields) + rest, n) == Some((NoteAll(fields, n), rest))
    decreases |fields|
  {
    hide NoteHeader, NoteLine;
    if fields == [] {
    } else {
      var h, tail := fields[0], FieldLines(fields[1..]) + rest;
      assert h in fields;
      FieldIsRead(h, tail, n);
      Associative(h.Line() + "\r\n", FieldLines(fields[1..]), rest);
      assert forall g | g in fields[1..] :: g in fields;
      FieldsAreRead(fields[1..], rest, NoteHeader(h.Key(), h.value, n));
    }
  }

  lemma FieldIsRead(h: Header, tail: string, n: Noted)
    requires h.WellFormed()
    ensures ReadFields(h.Line() + "\r\n" + tail, n) == ReadFields(tail, NoteHeader(h.Key(), h.value, n))
  {
    hide NoteHeader;
    var line := h.Line();
    var s := line + "\r\n" + tail;
    FindCrlfAfterLine(line, tail);
    assert s[..|line|] == line && s[|line| + 2..] == tail;
    HeaderPieces(h);
    assert line[|h.name|] == ':';
  }

  /** A reply that a client can separate: well-formed headers that announce the body's length. */
  predicate Separable(r: Reply) {
    && (forall h | h in r.fields :: h.WellFormed())
    && NoteAll(r.fields, NOTHING_NOTED).length == Some(|r.body|) && NoteAll(r.fields, NOTHING_NOTED).closes == !r.keep
  }

  function Meant(r: Reply): Answer {
    var noted := NoteAll(r.fields, NOTHING_NOTED);
    Answer(r.status, ReasonPhrase(r.status), noted.kind, noted.allow, r.body, noted.closes)
  }

  lemma ReasonHasNoLf(status: nat)
    ensures '\n' !in ReasonPhrase(status)
  {
    if status == 200 {
      assert '\n' !in "OK";
    } else if status == 400 {
      assert '\n' !in "Bad Request";
    } else if status == 403 {
      assert '\n' !in "Forbidden";
    } else if status == 404 {
      assert '\n' !in "Not Found";
    } else if status == 405 {
      assert '\n' !in "Method Not Allowed";
    } else if status == 413 {
      assert '\n' !in "Payload Too Large";
    } else if status == 431 {
      assert '\n' !in "Request Header Fields Too Large";
    } else if status == 500 {
      assert '\n' !in "Internal Server Error";
    } else {
      assert '\n' !in "Error";
    }
  }

  lemma StatusLineIs(status: nat)
    ensures var line := StatusLine(status);
            !HasCrlf(line) && StartsWith(line, "HTTP/1.1 ") && ReadStatus(line[9..]) == (status, ReasonPhrase(status))
  {
    var line := StatusLine(status);
    var start, reason := "HTTP/1.1 ", " " + ReasonPhrase(status);
    ReasonHasNoLf(status);
    assert forall i | 0 <= i < |start| :: start[i] != '\n';
    assert forall i | 0 <= i < |line| :: line[i] != '\n';
    assert line[9..] == Decimal(status) + reason;
    DecimalValue(status);
    DigitsEndAtSuffix(Decimal(status), reason, 0);
    assert line[9..] == Decimal(status) + " " + ReasonPhrase(status);
    FirstSpace(Decimal(status), ReasonPhrase(status));
  }

  /** A reply, followed by anything, is read as what it is. */
  lemma ReplyIsRead(r: Reply, rest: string)
    requires Separable(r)
    ensures ReadReply(r.Print() + rest) == Some((Meant(r), rest))
  {
    hide StatusLine, NoteAll, FieldLines, ReadFields, ReadStatus, ReasonPhrase;
    var line, tail := StatusLine(r.status), FieldLines(r.fields) + (r.body + rest);
    var s := r.Print() + rest;
    assert s == line + "\r\n" + tail;
    StatusLineIs(r.status);
    FindCrlfAfterLine(line, tail);
    assert s[..|line|] == line && s[|line| + 2..] == tail && s[9..|line|] == line[9..];
    FieldsAreRead(r.fields, r.body + rest, NOTHING_NOTED);
    assert (r.body + rest)[..|r.body|] == r.body && (r.body + rest)[|r.body|..] == rest;
  }

  // ---------- Every reply can be separated ----------

  lemma HeaderIsWellFormed(h: Header)
    requires ':' !in h.name && '\n' !in h.name && '\n' !in h.value
    requires h.value != "" && h.value[0] != ' ' && h.value[0] != '\t'
    ensures h.WellFormed()
  {
    assert forall i | 0 <= i < |h.Line()| :: h.Line()[i] != '\n';
  }

  lemma LengthName()
    ensures Lower("Content-Length") == "content-length" && ':' !in "Content-Length" && '\n' !in "Content-Length"
  {
  }

  lemma LengthIsNoted(body: string, n: Noted)
    ensures ContentLength(body).WellFormed()
    ensures NoteHeader(ContentLength(body).Key(), ContentLength(body).value, n) == n.(length := Some(|body|))
  {
    hide Lower, Header.WellFormed;
    var value := Decimal(|body|);
    LengthName();
    DecimalValue(|body|);
    assert IsDigit(value[0]) && forall i | 0 <= i < |value| :: IsDigit(value[i]);
    HeaderIsWellFormed(ContentLength(body));
  }

  lemma NotContained(hay: string, needle: string)
    requires needle != "" && needle[0] !in hay
    ensures !Contains(hay, needle)
  {
    forall i | 0 <= i <= |hay|
      ensures !(needle <= hay[i..])
    {
      if i < |hay| {
        assert hay[i..][0] == hay[i];
      }
    }
  }

  lemma CloseIsMentioned(keep: bool)
    ensures Contains(Lower(if keep then "keep-alive" else "close"), "close") <==> !keep
  {
    if keep {
      assert Lower("keep-alive") == "keep-alive";
      NotContained("keep-alive", "close");
    } else {
      assert Lower("close") == "close";
      assert "close" <= "close"[0..];
    }
  }

  lemma ConnectionIsNoted(name: string, keep: bool, n: Noted)
    requires name == "Connection" || name == "connection"
    ensures ConnectionField(name, keep).WellFormed()
    ensures NoteHeader(ConnectionField(name, keep).Key(), ConnectionField(name, keep).value, n)
            == n.(closes := n.closes || !keep)
  {
    hide Contains;
    assert Lower("Connection") == "connection" && Lower("connection") == "connection";
    assert |"connection"| != |"content-length"|;
    CloseIsMentioned(keep);
    HeaderIsWellFormed(ConnectionField(name, keep));
  }

  lemma TypeIsNoted(value: string, n: Noted)
    ensures NoteHeader(ContentType(value).Key(), value, n) == n.(kind := value)
  {
    assert Lower("Content-Type") == "content-type";
    assert |"content-type"| != |"content-length"| && |"content-type"| != |"connection"|;
  }

  lemma AllowIsNoted(n: Noted)
    ensures Header("Allow", "GET, POST").WellFormed()
    ensures NoteHeader(Header("Allow", "GET, POST").Key(), "GET, POST", n) == n.(allow := "GET, POST")
  {
    assert Lower("Allow") == "allow";
    assert |"allow"| != |"content-length"| && |"allow"| != |"connection"| && |"allow"| != |"content-type"|;
    HeaderIsWellFormed(Header("Allow", "GET, POST"));
  }

  lemma {:induction false} NoteOne(h: Header, rest: seq<Header>, n: Noted)
    ensures NoteAll([h] + rest, n) == NoteAll(rest, NoteHeader(h.Key(), h.value, n))
  {
    assert ([h] + rest)[1..] == rest;
  }

  /** The last two headers of every reply. */
  lemma EndIsNoted(body: string, name: string, keep: bool, n: Noted)
    requires name == "Connection" || name == "connection"
    ensures var fields := [ContentLength(body), ConnectionField(name, keep)];
            && (forall h | h in fields :: h.WellFormed())
            && NoteAll(fields, n) == n.(length := Some(|body|), closes := n.closes || !keep)
  {
    hide NoteHeader, NoteAll, Header.WellFormed;
    var length, connection := ContentLength(body), ConnectionField(name, keep);
    LengthIsNoted(body, n);
    ConnectionIsNoted(name, keep, n.(length := Some(|body|)));
    NoteOne(length, [connection], n);
    NoteOne(connection, [], NoteHeader(length.Key(), length.value, n));
    assert [length] + [connection] == [length, connection] && [connection] + [] == [connection];
    NothingToNote(NoteHeader(connection.Key(), connection.value, n.(length := Some(|body|))));
  }

  lemma NothingToNote(n: Noted)
    ensures NoteAll([], n) == n
  {
  }

  lemma TypeIsPlain(name: string)
    ensures ContentType(MimeType(name)).WellFormed() && ContentType("text/plain").WellFormed()
    ensures ContentType("text/html").WellFormed()
  {
    MimeIsPlain(name[LastDot(name)..]);
    MimeIsPlain(".html");
    MimeIsPlain(".txt");
    hide MimeOf;
    HeaderIsWellFormed(ContentType("text/html"));
    HeaderIsWellFormed(ContentType("text/plain"));
    HeaderIsWellFormed(ContentType(MimeType(name)));
  }

  lemma MimeIsPlain(extension: string)
    ensures var value := MimeOf(extension);
            '\n' !in value && value != "" && value[0] != ' ' && value[0] != '\t'
    ensures '\n' !in "application/octet-stream"
    ensures MimeOf(".html") == "text/html" && MimeOf(".txt") == "text/plain"
  {
  }

  lemma TypedIsSeparable(value: string, body: string, name: string, keep: bool, n: Noted)
    requires (name == "Connection" || name == "connection") && ContentType(value).WellFormed()
    ensures var fields := [ContentType(value)] + [ContentLength(body), ConnectionField(name, keep)];
            && (forall h | h in fields :: h.WellFormed())
            && NoteAll(fields, n) == n.(length := Some(|body|), closes := n.closes || !keep, kind := value)
  {
    hide NoteHeader, NoteAll, Header.WellFormed;
    TypeIsNoted(value, n);
    NoteOne(ContentType(value), [ContentLength(body), ConnectionField(name, keep)], n);
    EndIsNoted(body, name, keep, n.(kind := value));
  }

  lemma FileIsSeparable(site: Site, r: Request)
    ensures Separable(File(site, r))
    ensures Meant(File(site, r)) ==
            Answer(200, ReasonPhrase(200), MimeType(site.name(FilePath(r))), "", site.content(FilePath(r)),
                   !r.keepAlive)
  {
    hide NoteAll, Header.WellFormed, MimeType, ReasonPhrase;
    var f := File(site, r);
    TypeIsPlain(site.name(FilePath(r)));
    TypedIsSeparable(MimeType(site.name(FilePath(r))), f.body, "connection", r.keepAlive, NOTHING_NOTED);
    assert f.fields == [f.fields[0]] + [f.fields[1], f.fields[2]];
  }

  lemma EchoIsSeparable(r: Request)
    ensures Separable(Echo(r))
    ensures Meant(Echo(r)) == Answer(200, ReasonPhrase(200), "text/plain", "", "Receive body: " + r.body, !r.keepAlive)
  {
    hide NoteAll, Header.WellFormed, ReasonPhrase;
    var e := Echo(r);
    TypeIsPlain("");
    TypedIsSeparable("text/plain", e.body, "Connection", r.keepAlive, NOTHING_NOTED);
    assert e.fields == [e.fields[0]] + [e.fields[1], e.fields[2]];
  }

  lemma ErrorIsSeparable(status: nat)
    ensures Separable(ErrorPage(status))
    ensures Meant(ErrorPage(status)) ==
            Answer(status, ReasonPhrase(status), "", "", "<h1>" + ReasonPhrase(status) + "</h1>", true)
  {
    hide NoteAll, Header.WellFormed, ReasonPhrase;
    EndIsNoted(ErrorPage(status).body, "Connection", false, NOTHING_NOTED);
  }

  lemma NotAllowedIsSeparable()
    ensures Separable(NotAllowed())
    ensures Meant(NotAllowed()) ==
            Answer(405, ReasonPhrase(405), "text/html", "GET, POST", "<h1>Method Not Allowed</h1>", true)
  {
    hide NoteAll, NoteHeader, Header.WellFormed, ReasonPhrase;
    var r := NotAllowed();
    var allow := Header("Allow", "GET, POST");
    AllowIsNoted(NOTHING_NOTED);
    TypeIsPlain("");
    TypedIsSeparable("text/html", r.body, "Connection", false, NOTHING_NOTED.(allow := "GET, POST"));
    NoteOne(allow, r.fields[1..], NOTHING_NOTED);
    assert r.fields[1..] == [r.fields[1]] + [r.fields[2], r.fields[3]];
    assert r.fields == [allow] + r.fields[1..];
  }

  lemma ReplyIsSeparable(site: Site, r: Request, status: nat)
    ensures Separable(ReplyTo(site, r, status))
  {
    hide Separable, File, Echo, ErrorPage, NotAllowed, Meant;
    FileIsSeparable(site, r);
    EchoIsSeparable(r);
    ErrorIsSeparable(status);
    NotAllowedIsSeparable();
  }

  lemma {:induction false} RepliesAreSeparable(site: Site, events: seq<Event>)
    ensures forall r | r in RepliesTo(site, events) :: Separable(r)
    decreases |events|
  {
    hide Separable, ReplyTo, ErrorPage;
    if events == [] {
    } else if events[0].Replied? {
      ErrorIsSeparable(events[0].status);
      RepliesAreSeparable(site, events[1..]);
    } else if |events| > 1 && events[1].Replied? {
      ReplyIsSeparable(site, events[0].request, events[1].status);
      RepliesAreSeparable(site, events[2..]);
    } else {
      RepliesAreSeparable(site, events[1..]);
    }
  }

  // ---------- A connection's replies ----------

  function PrintReplies(replies: seq<Reply>): string {
    if replies == [] then "" else replies[0].Print() + PrintReplies(replies[1..])
  }

  function AllMeant(replies: seq<Reply>): seq<Answer> {
    seq(|replies|, i requires 0 <= i < |replies| => Meant(replies[i]))
  }

  lemma {:induction false} AllAreRead(replies: seq<Reply>)
    requires forall r | r in replies :: Separable(r)
    ensures ReadAll(PrintReplies(replies)) == (AllMeant(replies), "")
    decreases |replies|
  {
    hide Separable, ReadReply, Meant, Reply.Print;
    if replies == [] {
    } else {
      assert replies[0] in replies;
      ReplyIsRead(replies[0], PrintReplies(replies[1..]));
      AllAreRead(replies[1..]);
      assert AllMeant(replies) == [Meant(replies[0])] + AllMeant(replies[1..]);
    }
  }

  /** The parts that the replies go out in. */
  function AllParts(replies: seq<Reply>): seq<string> {
    if replies == [] then [] else replies[0].Parts() + AllParts(replies[1..])
  }

  lemma {:induction false} BlocksAreContent(content: string)
    ensures Concat(Blocks(content)) == content && forall b | b in Blocks(content) :: b != ""
    ensures forall i | 0 <= i < |Blocks(content)| ::
              |Blocks(content)[i]| <= 65536 && (i < |Blocks(content)| - 1 ==> |Blocks(content)[i]| == 65536)
    decreases |content|
  {
    if |content| > BLOCK {
      BlocksAreContent(content[BLOCK..]);
      var blocks := Blocks(content);
      assert blocks[1..] == Blocks(content[BLOCK..]);
      assert content == content[..BLOCK] + content[BLOCK..];
    } else if content != "" {
      assert [content][1..] == [] && content + "" == content;
    }
  }

  lemma {:induction false} ConcatAppend(a: seq<string>, b: seq<string>)
    ensures Concat(a + b) == Concat(a) + Concat(b)
    decreases |a|
  {
    if a == [] {
      assert a + b == b;
    } else {
      assert (a + b)[1..] == a[1..] + b;
      ConcatAppend(a[1..], b);
      Associative(a[0], Concat(a[1..]), Concat(b));
    }
  }

  lemma PartsArePrint(r: Reply)
    ensures Concat(r.Parts()) == r.Print() && forall p | p in r.Parts() :: p != ""
  {
    hide FieldLines;
    if r.inBlocks {
      BlocksAreContent(r.body);
      assert r.Parts()[1..] == Blocks(r.body);
    } else {
      assert [r.Print()][1..] == [] && r.Print() + "" == r.Print();
    }
  }

  /** A file goes out as its head and then its content in blocks of 64 KB, any other reply in one send. */
  lemma FilesComeInBlocks(site: Site, r: Request, status: nat)
    ensures var parts := ReplyTo(site, r, status).Parts();
            if r.verb == "GET" && status == 200 then
              && parts != [] && Concat(parts[1..]) == site.content(if r.path == "/" then "index.html" else r.path)
              && forall i | 1 <= i < |parts| ::
                   0 < |parts[i]| <= 65536 && (i < |parts| - 1 ==> |parts[i]| == 65536)
            else |parts| == 1
  {
    hide MimeType, Reply.Head;
    var content := site.content(FilePath(r));
    BlocksAreContent(content);
    if r.verb == "GET" && status == 200 {
      var parts := ReplyTo(site, r, status).Parts();
      assert parts[1..] == Blocks(content);
      assert forall i | 1 <= i < |parts| :: parts[i] == Blocks(content)[i - 1] && parts[i] in Blocks(content);
    }
  }

  lemma {:induction false} AllPartsArePrint(replies: seq<Reply>)
    ensures Concat(AllParts(replies)) == PrintReplies(replies) && forall p | p in AllParts(replies) :: p != ""
    decreases |replies|
  {
    hide Reply.Parts, Reply.Print;
    if replies != [] {
      PartsArePrint(replies[0]);
      AllPartsArePrint(replies[1..]);
      ConcatAppend(replies[0].Parts(), AllParts(replies[1..]));
    }
  }

  /** What a connection is asked to do for its replies, and for the handler's close. */
  function Asks(parts: seq<string>, closed: bool): seq<W.Act> {
    if parts == [] then if closed then [W.Act.Close] else []
    else [W.Send(parts[0])] + Asks(parts[1..], closed)
  }

  lemma {:induction false} AsksSend(parts: seq<string>, closed: bool)
    requires forall p | p in parts :: p != ""
    ensures W.SentBytes(Asks(parts, closed)) == Concat(parts) && W.ClosesLast(Asks(parts, closed))
    decreases |parts|
  {
    if parts == [] {
      assert [W.Act.Close][1..] == [];
    } else {
      assert parts[0] in parts && forall p | p in parts[1..] :: p in parts;
      AsksSend(parts[1..], closed);
      W.SendCons(parts[0], Asks(parts[1..], closed));
    }
  }

  // ---------- What the client should read ----------

  /** The names of the statuses in section 15 of RFC 9110 and section 5 of RFC 6585. */
  const PHRASES: map<nat, string> := map[
    200 := "OK", 400 := "Bad Request", 403 := "Forbidden", 404 := "Not Found", 405 := "Method Not Allowed",
    413 := "Payload Too Large", 431 := "Request Header Fields Too Large", 500 := "Internal Server Error"]

  predicate EndsWith(s: string, end: string) {
    |end| <= |s| && s[|s| - |end|..] == end
  }

  /** The type of a file, by how its name ends. */
  function KindOf(name: string): string {
    if EndsWith(name, ".html") then "text/html"
    else if EndsWith(name, ".css") then "text/css"
    else if EndsWith(name, ".js") then "application/javascript"
    else if EndsWith(name, ".png") then "image/png"
    else if EndsWith(name, ".jpg") then "image/jpeg"
    else if EndsWith(name, ".txt") then "text/plain"
    else "application/octet-stream"
  }

  /** What the client of a request should read when it got this status. */
  function Due(site: Site, r: Request, status: nat): Answer {
    if status == 200 && r.verb == "GET" then FileDue(site, if r.path == "/" then "index.html" else r.path, !r.keepAlive)
    else if status == 200 then Answer(200, "OK", "text/plain", "", "Receive body: " + r.body, !r.keepAlive)
    else if status == 405 && r.verb != "GET" then
      Answer(405, "Method Not Allowed", "text/html", "GET, POST", "<h1>Method Not Allowed</h1>", true)
    else Refusal(status)
  }

  function FileDue(site: Site, path: string, closes: bool): Answer {
    Answer(200, "OK", KindOf(site.name(path)), "", site.content(path), closes)
  }

  function Refusal(status: nat): Answer {
    var phrase := if status in PHRASES then PHRASES[status] else "Error";
    Answer(status, phrase, "", "", "<h1>" + phrase + "</h1>", true)
  }

  /** One answer for each request that was replied to, and one for what the parser refused. */
  function AllDue(site: Site, events: seq<Event>): seq<Answer> {
    if events == [] then []
    else if events[0].Replied? then [Refusal(events[0].status)] + AllDue(site, events[1..])
    else if |events| > 1 && events[1].Replied? then
      [Due(site, events[0].request, events[1].status)] + AllDue(site, events[2..])
    else AllDue(site, events[1..])
  }

  predicate IsExtension(end: string) {
    end != "" && end[0] == '.' && '.' !in end[1..]
  }

  lemma ExtensionsHaveOneDot()
    ensures IsExtension(".html") && IsExtension(".css") && IsExtension(".js")
    ensures IsExtension(".png") && IsExtension(".jpg") && IsExtension(".txt")
  {
    assert ".html"[1..] == "html" && ".css"[1..] == "css" && ".js"[1..] == "js";
    assert ".png"[1..] == "png" && ".jpg"[1..] == "jpg" && ".txt"[1..] == "txt";
  }

  lemma {:induction false} DotIsLast(name: string, i: nat)
    requires i < |name| && name[i] == '.' && '.' !in name[i + 1..]
    ensures LastDot(name) == i
    decreases |name|
  {
    var n := |name| - 1;
    if i < n {
      assert name[i + 1..] == name[..n][i + 1..] + [name[n]];
      assert name[n] in name[i + 1..];
      DotIsLast(name[..n], i);
    }
  }

  lemma LastDotOf(name: string, end: string)
    requires EndsWith(name, end) && IsExtension(end)
    ensures LastDot(name) == |name| - |end|
  {
    hide LastDot;
    var at := |name| - |end|;
    assert name[at] == end[0] && name[at + 1..] == end[1..];
    DotIsLast(name, at);
  }

  lemma KindIsMime(name: string, end: string)
    requires IsExtension(end)
    ensures EndsWith(name, end) <==> LastDot(name) < |name| && name[LastDot(name)..] == end
  {
    if EndsWith(name, end) {
      LastDotOf(name, end);
    }
  }

  lemma MimeIsKind(name: string)
    ensures MimeType(name) == KindOf(name)
  {
    hide EndsWith, LastDot, IsExtension;
    ExtensionsHaveOneDot();
    KindIsMime(name, ".html");
    KindIsMime(name, ".css");
    KindIsMime(name, ".js");
    KindIsMime(name, ".png");
    KindIsMime(name, ".jpg");
    KindIsMime(name, ".txt");
  }

  lemma PhraseIsKnown(status: nat)
    ensures ReasonPhrase(status) == if status in PHRASES then PHRASES[status] else "Error"
  {
  }

  lemma ReplyIsDue(site: Site, r: Request, status: nat)
    ensures Meant(ReplyTo(site, r, status)) == Due(site, r, status)
  {
    hide ReasonPhrase, MimeType, KindOf, NotAllowed, Refusal, Meant, File, Echo, ErrorPage;
    PhraseIsKnown(200);
    PhraseIsKnown(405);
    MimeIsKind(site.name(FilePath(r)));
    FileIsSeparable(site, r);
    EchoIsSeparable(r);
    NotAllowedIsSeparable();
    RefusalIsDue(status);
  }

  lemma RefusalIsDue(status: nat)
    ensures Meant(ErrorPage(status)) == Refusal(status)
  {
    hide ReasonPhrase, Meant, ErrorPage;
    PhraseIsKnown(status);
    ErrorIsSeparable(status);
  }

  lemma {:induction false} RepliesAreDue(site: Site, events: seq<Event>)
    ensures AllMeant(RepliesTo(site, events)) == AllDue(site, events)
    decreases |events|
  {
    hide Due, Refusal, ReplyTo, ErrorPage, Meant;
    if events == [] {
    } else if events[0].Replied? {
      RefusalIsDue(events[0].status);
      RepliesAreDue(site, events[1..]);
      MeantCons(ErrorPage(events[0].status), RepliesTo(site, events[1..]));
    } else if |events| > 1 && events[1].Replied? {
      ReplyIsDue(site, events[0].request, events[1].status);
      RepliesAreDue(site, events[2..]);
      MeantCons(ReplyTo(site, events[0].request, events[1].status), RepliesTo(site, events[2..]));
    } else {
      RepliesAreDue(site, events[1..]);
    }
  }

  lemma MeantCons(r: Reply, replies: seq<Reply>)
    ensures AllMeant([r] + replies) == [Meant(r)] + AllMeant(replies)
  {
  }

  /**
   Whatever a client sends on a connection, in whatever segments, and whatever the kernel answers to the
   sends: from the bytes that an unharmed connection takes on the client reads exactly the answers it is
   due, in order: for each request its file, its body or the refusal, and whether the connection closes. When
   the handler closed the connection it is closed with all of this on the wire, or waits to send the rest.
   */
  lemma RepliesReachTheClient(w: World, site: Site, cut: seq<string>, ops: seq<W.Op>)
    requires cut != [] && W.Legal(W.CONNECTED, ops) && W.Unharmed(W.Run(W.CONNECTED, ops))
    requires var c := FeedAll(w, ACCEPTED, cut);
             (c.ended.Open? || c.ended.HandlerClosed?)
             && W.Asked(ops) == Asks(AllParts(RepliesTo(site, c.requests)), c.ended.HandlerClosed?)
    ensures ReadAll(W.Accepted(W.CONNECTED, ops)) == (AllDue(site, FeedAll(w, ACCEPTED, cut).requests), "")
    ensures var end := W.Run(W.CONNECTED, ops);
            && end.wire + end.buffer == W.Accepted(W.CONNECTED, ops)
            && (FeedAll(w, ACCEPTED, cut).ended.HandlerClosed? ==> W.ClosesInTime(end))
  {
    hide RepliesTo, ReadAll, AllMeant, FeedAll, AllParts, AllDue;
    var c := FeedAll(w, ACCEPTED, cut);
    var replies := RepliesTo(site, c.requests);
    RepliesAreSeparable(site, c.requests);
    AllAreRead(replies);
    AllPartsArePrint(replies);
    AsksSend(AllParts(replies), c.ended.HandlerClosed?);
    W.EverythingIsAccepted(W.CONNECTED, ops);
    RepliesAreDue(site, c.requests);
    W.NothingLostOrReordered(W.CONNECTED, ops);
    assert "" + W.Accepted(W.CONNECTED, ops) == W.Accepted(W.CONNECTED, ops);
    if c.ended.HandlerClosed? {
      AsksForClose(AllParts(replies));
      W.AskedToCloseCloses(W.CONNECTED, ops);
    }
  }

  lemma {:induction false} AsksForClose(parts: seq<string>)
    ensures W.Act.Close in Asks(parts, true)
    decreases |parts|
  {
    if parts != [] {
      AsksForClose(parts[1..]);
    }
  }

  // ---------- The client is told of the close ----------

  /** Only the last reply may say that the connection closes, and only when the handler closes it. */
  predicate ToldTruly(replies: seq<Reply>, ended: Ended) {
    forall i | 0 <= i < |replies| && !replies[i].keep :: i == |replies| - 1 && ended.HandlerClosed?
  }

  /** What one call of the parser tells: a close is told, unless a malformed request line got no reply. */
  predicate TellsAs(replies: seq<Reply>, events: seq<Event>, result: ProcessResult) {
    match result
    case Continue => |replies| == 1 && replies[0].keep
    case Close => events == [] || (|replies| == 1 && !replies[0].keep)
    case _ => replies == []
  }

  lemma FinishTells(w: World, site: Site, ch: Channel, rest: string)
    ensures TellsAs(RepliesTo(site, Finish(w, ch, rest).events), Finish(w, ch, rest).events, Finish(w, ch, rest).result)
  {
    hide File, Echo, ErrorPage, NotAllowed, Contains;
    var r, v := ch.ToRequest(), Dispatch(w, ch.ToRequest());
    var first := Dispatched(r, ch.headerBytes, ch.headerCount);
    NoReplies(site);
    if v.events == [] {
      assert ([first] + v.events)[1..] == [];
    } else {
      assert v.events == [Replied(v.events[0].status)];
      OneReply(site, first, v.events[0].status, []);
      assert [first] + v.events == [first] + [Replied(v.events[0].status)] + [];
      RepliesKeep(site, r, v.events[0].status);
    }
  }

  lemma RepliesKeep(site: Site, r: Request, status: nat)
    ensures ReplyTo(site, r, status).keep <==> status == 200 && r.keepAlive
    ensures !ErrorPage(status).keep
  {
  }

  lemma {:induction false} ConsumeTells(w: World, site: Site, ch: Channel, buffer: string)
    requires ch.Valid()
    ensures var o := Consume(w, ch, buffer); TellsAs(RepliesTo(site, o.events), o.events, o.result)
    decreases |buffer|, if ch.state.Done? then 0 else 1
  {
    hide TellsAs, RepliesTo, Finish;
    if ch.state.Done? {
      FinishTells(w, site, ch, buffer);
    } else {
      AdvanceKeeps(ch, buffer);
      var s := Advance(ch, buffer);
      if s.Go? {
        ConsumeTells(w, site, s.ch, s.rest);
      } else {
        StopTells(site, ch, buffer);
      }
    }
  }

  lemma StopTells(site: Site, ch: Channel, buffer: string)
    requires ch.Ready() && !Advance(ch, buffer).Go?
    ensures var s := Advance(ch, buffer);
            if s.Wait? then TellsAs(RepliesTo(site, []), [], NeedMore)
            else TellsAs(RepliesTo(site, s.events), s.events, Close)
  {
    hide ErrorPage, ParseHeaderLine, ParseRequestLine;
    NoReplies(site);
    var s := Advance(ch, buffer);
    if s.Reject? && s.events != [] {
      assert s.events == [Replied(s.events[0].status)] && s.events[1..] == [];
      RepliesKeep(site, ch.ToRequest(), s.events[0].status);
    }
  }

  lemma {:induction false} DriveTells(w: World, site: Site, ch: Channel, buffer: string)
    requires ch.Ready()
    ensures ToldTruly(RepliesTo(site, Drive(w, ch, buffer).events), Drive(w, ch, buffer).ended)
    decreases |buffer|
  {
    hide Consume, RepliesTo, ReplyTo;
    ConsumeAccounts(w, ch, buffer);
    ConsumeAnswers(w, ch, buffer);
    ConsumeTells(w, site, ch, buffer);
    var o := Consume(w, ch, buffer);
    NoReplies(site);
    if o.result.Continue? && o.rest != "" {
      DriveTells(w, site, o.ch, o.rest);
      var more := Drive(w, o.ch, o.rest).events;
      assert o.events == [o.events[0]] + [Replied(200)] && o.events + [] == o.events;
      OneReply(site, o.events[0], 200, []);
      OneReply(site, o.events[0], 200, more);
    }
  }

  /**
   What the replies say about the connection is true: a client in whatever segments it sends is told of a
   close by the last reply only, and only if the connection is then closed.
   */
  lemma ClosesAreToldTruly(w: World, site: Site, cut: seq<string>)
    requires cut != []
    ensures var c := FeedAll(w, ACCEPTED, cut); ToldTruly(RepliesTo(site, c.requests), c.ended)
  {
    hide Drive, RepliesTo;
    FeedAllIsFeed(w, ACCEPTED, cut);
    assert "" + Concat(cut) == Concat(cut);
    DriveTells(w, site, FRESH, Concat(cut));
    NoReplies(site);
    assert forall d: Driven :: [] + d.events == d.events;
  }

  // ---------- Pipelines ----------

  /** What the client of a served request should read: the file, or its own body. */
  function ServedAnswer(site: Site, m: Message): Answer {
    if m.verb == "GET" then FileDue(site, if m.path == "/" then "index.html" else m.path, false)
    else Answer(200, "OK", "text/plain", "", "Receive body: " + m.body, false)
  }

  function AllServed(site: Site, messages: seq<Message>): seq<Answer> {
    seq(|messages|, i requires 0 <= i < |messages| => ServedAnswer(site, messages[i]))
  }

  lemma ServedGets(w: World, site: Site, m: Message)
    requires Served(w, m)
    ensures Dispatch(w, m.Meaning()) == Verdict(Continue, [Replied(200)])
    ensures Meant(ReplyTo(site, m.Meaning(), 200)) == ServedAnswer(site, m)
  {
    WhatRequestsGet(w, m.Meaning());
    hide Dispatch, HeaderMap, KeepAlive, ReplyTo, Meant, KindOf;
    assert m.Meaning().keepAlive;
    ReplyIsDue(site, m.Meaning(), 200);
  }

  lemma OneReply(site: Site, e: Event, status: nat, rest: seq<Event>)
    requires e.Dispatched?
    ensures RepliesTo(site, [e] + [Replied(status)] + rest) ==
            [ReplyTo(site, e.request, status)] + RepliesTo(site, rest)
  {
    var events := [e] + [Replied(status)] + rest;
    assert events[2..] == rest;
  }

  lemma {:induction false} PipelineReplies(w: World, site: Site, messages: seq<Message>)
    requires forall m | m in messages :: Served(w, m)
    ensures AllMeant(RepliesTo(site, Drive(w, FRESH, PrintAll(messages)).events)) == AllServed(site, messages)
    decreases |messages|
  {
    hide Consume, Served, Dispatch, Message.Print, ReplyTo, Meant, ServedAnswer, RepliesTo;
    if messages == [] {
      DriveNothing(w);
      NoReplies(site);
    } else {
      var m, tail := messages[0], PrintAll(messages[1..]);
      assert m in messages && forall o | o in messages[1..] :: o in messages;
      ServedConsumed(w, site, m, tail);
      var o := Consume(w, FRESH, m.Print() + tail);
      PipelineReplies(w, site, messages[1..]);
      OneReply(site, o.events[0], 200, []);
      NoReplies(site);
      assert o.events + [] == o.events;
      if tail == "" {
        NothingPrinted(messages[1..]);
      } else {
        OneReply(site, o.events[0], 200, Drive(w, FRESH, tail).events);
      }
      assert AllServed(site, messages) == [ServedAnswer(site, m)] + AllServed(site, messages[1..]);
    }
  }

  lemma NoReplies(site: Site)
    ensures RepliesTo(site, []) == [] && AllMeant([]) == []
  {
  }

  /** A served request is consumed with its dispatch and its reply. */
  lemma ServedConsumed(w: World, site: Site, m: Message, tail: string)
    requires Served(w, m)
    ensures var o := Consume(w, FRESH, m.Print() + tail);
            && o.ch == FRESH && o.rest == tail && o.result.Continue?
            && |o.events| == 2 && o.events[0].Dispatched? && o.events == [o.events[0]] + [Replied(200)]
            && Meant(ReplyTo(site, o.events[0].request, 200)) == ServedAnswer(site, m)
  {
    hide Consume, Dispatch, Message.Print, ReplyTo, Meant, ServedAnswer;
    PrintParse(w, m, tail);
    ServedGets(w, site, m);
  }

  /**
   A client that sends any pipeline of served requests, cut in any way, reads from the bytes that an
   unharmed connection takes on exactly one answer for each request, in order: a GET's file, a POST's body.
   */
  lemma PipelineIsAnswered(w: World, site: Site, messages: seq<Message>, cut: seq<string>, ops: seq<W.Op>)
    requires messages != [] && cut != [] && Concat(cut) == PrintAll(messages)
    requires forall m | m in messages :: Served(w, m)
    requires W.Legal(W.CONNECTED, ops) && W.Unharmed(W.Run(W.CONNECTED, ops))
    requires W.Asked(ops) == Asks(AllParts(RepliesTo(site, FeedAll(w, ACCEPTED, cut).requests)), false)
    ensures ReadAll(W.Accepted(W.CONNECTED, ops)) == (AllServed(site, messages), "")
  {
    hide FeedAll, RepliesTo, Drive, AllParts, ReadAll, Served;
    PipelineIsDriven(w, messages, cut);
    PipelineReplies(w, site, messages);
    RepliesAreDue(site, FeedAll(w, ACCEPTED, cut).requests);
    RepliesReachTheClient(w, site, cut, ops);
  }

  // ---------- Refusals ----------

  /** A GET for a file that the gateway refuses with this status, alone on its connection. */
  ghost predicate RefusedGet(w: World, m: Message, status: nat) {
    && m.WellFormed() && m.InLimits() && m.verb == "GET" && m.path != "/events" && AcceptsNoEvents(m)
    && status != 200 && w.file(if m.path == "/" then "index.html" else m.path) == status
  }

  lemma RefusedGetGets(w: World, m: Message, status: nat)
    requires RefusedGet(w, m, status)
    ensures Dispatch(w, m.Meaning()) == Verdict(Close, [Replied(status)])
  {
    AcceptHeader(m);
    hide HeaderMap, KeepAlive, Contains, AcceptsNoEvents;
  }

  lemma RefusedGetIsDriven(w: World, m: Message, status: nat, cut: seq<string>)
    requires RefusedGet(w, m, status) && cut != [] && Concat(cut) == m.Print()
    ensures var c := FeedAll(w, ACCEPTED, cut);
            && c.ended.HandlerClosed? && |c.requests| == 2
            && c.requests[0].Dispatched? && c.requests[0].request.verb == "GET" && c.requests[1] == Replied(status)
            && status != 200
  {
    hide FeedAll, Feed, Consume, LooksLikeHttp, Dispatch, Message.PrintFrom, AcceptsNoEvents;
    AcceptedIsValid();
    FeedAllIsFeed(w, ACCEPTED, cut);
    PrintParse(w, m, "");
    RefusedGetGets(w, m, status);
    PrintedLooksLikeHttp(m, "");
    assert m.Print() + "" == m.Print();
    assert m.Print()[0] == m.verb[0];
    FirstHttpBytes(w, m.Print());
  }

  /** A refused file: the client reads the status, and the connection closes as it is told. Missing files are 404. */
  lemma RefusedFileIsAnswered(
    w: World, site: Site, m: Message, status: nat, cut: seq<string>, ops: seq<W.Op>)
    requires RefusedGet(w, m, status) && cut != [] && Concat(cut) == m.Print()
    requires W.Legal(W.CONNECTED, ops) && W.Unharmed(W.Run(W.CONNECTED, ops))
    requires W.Asked(ops) == Asks(AllParts(RepliesTo(site, FeedAll(w, ACCEPTED, cut).requests)), true)
    ensures var (answers, rest) := ReadAll(W.Accepted(W.CONNECTED, ops));
            && |answers| == 1 && rest == "" && answers[0].status == status && answers[0].closes
            && (status == 404 ==> answers[0].reason == "Not Found" && answers[0].body == "<h1>Not Found</h1>")
    ensures W.ClosesInTime(W.Run(W.CONNECTED, ops))
  {
    hide FeedAll, RepliesTo, AllParts, ReadAll, RefusedGet, Asks, W.ClosesInTime, W.Run, W.Legal, W.Unharmed;
    hide AllDue, ReasonPhrase, Refusal;
    RefusedGetIsDriven(w, m, status, cut);
    RepliesReachTheClient(w, site, cut, ops);
    RefusalIsDueAlone(site, FeedAll(w, ACCEPTED, cut).requests);
    RefusalSays(status);
  }

  lemma RefusalSays(status: nat)
    ensures Refusal(status).status == status && Refusal(status).closes
    ensures Refusal(404).reason == "Not Found" && Refusal(404).body == "<h1>Not Found</h1>"
  {
    assert "<h1>" + "Not Found" + "</h1>" == "<h1>Not Found</h1>";
  }

  lemma RefusalIsDueAlone(site: Site, events: seq<Event>)
    requires |events| == 2 && events[0].Dispatched? && events[0].request.verb == "GET"
    requires events[1].Replied? && events[1].status != 200
    ensures AllDue(site, events) == [Refusal(events[1].status)]
  {
    assert events[2..] == [] && AllDue(site, events[2..]) == [];
  }
}
