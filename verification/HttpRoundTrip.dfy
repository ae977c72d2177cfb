/**
 Requests printed by a client are the requests the gateway dispatches: the parser inverts the
 printer on every well-formed request that is within the limits, and refuses exactly the others.
 */
module HttpRoundTrip {
  import opened Text
  import opened Limits
  import opened HttpParser
  import opened ProtocolHandlers
  import opened Lines
  import opened ReadPath

  datatype Header = Header(name: string, value: string) {
    function Line(): string {
      name + ": " + value
    }

    /** Names are case-insensitive. */
    function Key(): string {
      Lower(name)
    }

    predicate WellFormed() {
      && ':' !in name
      && value != "" && value[0] != ' ' && value[0] != '\t'
      && !HasCrlf(Line())
    }
  }

  datatype Message = Message(verb: string, path: string, query: Option<string>, headers: seq<Header>, body: string) {
    function Target(): string {
      match query
      case None => path
      case Some(q) => path + "?" + q
    }

    function RequestLine(): string {
      verb + " " + (Target() + " HTTP/1.1")
    }

    function QueryText(): string {
      match query
      case None => ""
      case Some(q) => q
    }

    ghost predicate WellFormed() {
      && Token(verb) && Token(Target()) && '?' !in path
      && (forall h | h in headers :: h.WellFormed())
      && (forall h | h in headers && h.Key() == "content-length" :: AnnouncesBody(h))
      && (if verb == "POST" then body == "" || exists h :: h in headers && h.Key() == "content-length" else body == "")
    }

    /** A content-length header is a decimal number that fits an int, and a POST's is its body's length. */
    ghost predicate AnnouncesBody(h: Header) {
      exists n: nat :: n <= INT_MAX && h.value == Decimal(n) && (verb == "POST" ==> n == |body|)
    }

    /** Bytes of the request line and the first `k` header lines, with their CRLFs. */
    function HeadBytes(k: nat): nat
      requires k <= |headers|
    {
      if k == 0 then |RequestLine()| + 2 else HeadBytes(k - 1) + |headers[k - 1].Line()| + 2
    }

    predicate HeadInLimits() {
      |headers| <= 100 && HeadBytes(|headers|) <= 8192
    }

    predicate InLimits() {
      HeadInLimits() && |body| <= 1048576
    }

    function Print(): string {
      RequestLine() + "\r\n" + PrintFrom(0)
    }

    /** The header lines from the `k`-th on, the blank line and the body. */
    function PrintFrom(k: nat): string
      requires k <= |headers|
      decreases |headers| - k
    {
      if k == |headers| then "\r\n" + body else headers[k].Line() + "\r\n" + PrintFrom(k + 1)
    }

    /** The request a handler should see. */
    function Meaning(): Request {
      Request(verb, path, QueryText(), HeaderMap(headers), body, KeepAlive(headers))
    }
  }

  /** White space in the C locale: the blank, and the bytes from the tab to the carriage return. */
  predicate IsBlank(c: char) {
    c as int == 32 || 9 <= c as int <= 13
  }

  predicate Blank(s: string) {
    forall i | 0 <= i < |s| :: IsBlank(s[i])
  }

  predicate Token(s: string) {
    s != "" && forall i | 0 <= i < |s| :: !IsBlank(s[i])
  }

  function Digit(n: nat): char
    requires n < 10
  {
    ('0' as int + n) as char
  }

  function Decimal(n: nat): (s: string)
    ensures s != ""
    ensures forall i | 0 <= i < |s| :: IsDigit(s[i])
  {
    if n < 10 then [Digit(n)] else Decimal(n / 10) + [Digit(n % 10)]
  }

  function HeaderMap(headers: seq<Header>): map<string, string> {
    if headers == [] then map[]
    else
      var last := headers[|headers| - 1];
      HeaderMap(headers[..|headers| - 1])[last.Key() := last.value]
  }

  function Announced(headers: seq<Header>): nat {
    var length := AnnouncedLength(HeaderMap(headers));
    if length.Some? then length.value else 0
  }

  function KeepAlive(headers: seq<Header>): bool {
    if headers == [] then true
    else
      var last := headers[|headers| - 1];
      var before := KeepAlive(headers[..|headers| - 1]);
      if last.Key() == "connection" then KeepAliveAfter(last.value, before) else before
  }

  /** The header at `i` is the last one of its name. */
  predicate IsLast(headers: seq<Header>, i: nat)
    requires i < |headers|
  {
    forall j | i < j < |headers| :: headers[j].Key() != headers[i].Key()
  }

  lemma {:induction false} LastIsFound(headers: seq<Header>, i: nat)
    requires i < |headers| && IsLast(headers, i)
    ensures headers[i].Key() in HeaderMap(headers) && HeaderMap(headers)[headers[i].Key()] == headers[i].value
    decreases |headers|
  {
    hide Header.Key;
    var before, last := headers[..|headers| - 1], |headers| - 1;
    if i < last {
      LastIsFound(before, i);
    }
  }

  lemma {:induction false} FoundIsLast(headers: seq<Header>, name: string)
    requires name in HeaderMap(headers)
    ensures exists i :: 0 <= i < |headers| && headers[i].Key() == name && IsLast(headers, i)
    decreases |headers|
  {
    hide Header.Key;
    var before, last := headers[..|headers| - 1], |headers| - 1;
    if name == headers[last].Key() {
      assert IsLast(headers, last);
    } else {
      FoundIsLast(before, name);
      var i :| 0 <= i < last && before[i].Key() == name && IsLast(before, i);
      assert headers[i].Key() == name && IsLast(headers, i);
    }
  }

  /** The last header of each name is found under it, and nothing else is. */
  lemma HeaderMapIsExact(headers: seq<Header>)
    ensures forall i | 0 <= i < |headers| && IsLast(headers, i) ::
              headers[i].Key() in HeaderMap(headers) && HeaderMap(headers)[headers[i].Key()] == headers[i].value
    ensures forall name | name in HeaderMap(headers) ::
              exists i :: 0 <= i < |headers| && headers[i].Key() == name && IsLast(headers, i)
  {
    hide Header.Key, IsLast, HeaderMap;
    forall i | 0 <= i < |headers| && IsLast(headers, i)
      ensures headers[i].Key() in HeaderMap(headers) && HeaderMap(headers)[headers[i].Key()] == headers[i].value
    {
      LastIsFound(headers, i);
    }
    forall name | name in HeaderMap(headers)
      ensures exists i :: 0 <= i < |headers| && headers[i].Key() == name && IsLast(headers, i)
    {
      FoundIsLast(headers, name);
    }
  }

  predicate SaysClose(h: Header) {
    h.Key() == "connection" && Contains(Lower(h.value), "close")
  }

  predicate SaysKeep(h: Header) {
    h.Key() == "connection" && Contains(Lower(h.value), "keep-alive") && !Contains(Lower(h.value), "close")
  }

  /** Every connection header that mentions close is followed by one that mentions keep-alive and not close. */
  ghost predicate AskToBeKept(headers: seq<Header>) {
    forall i | 0 <= i < |headers| && SaysClose(headers[i]) ::
      exists j :: i < j < |headers| && SaysKeep(headers[j])
  }

  /** That is when a connection is kept; without repeated headers it is when none mentions close. */
  lemma {:induction false} KeptUnlessClosed(headers: seq<Header>)
    ensures KeepAlive(headers) <==> AskToBeKept(headers)
    decreases |headers|
  {
    hide Contains, Lower;
    if headers != [] {
      var before, last := headers[..|headers| - 1], headers[|headers| - 1];
      KeptUnlessClosed(before);
      AskedOneMore(before, last);
      assert headers == before + [last];
    }
  }

  lemma AskedOneMore(before: seq<Header>, last: Header)
    ensures AskToBeKept(before + [last]) <==> SaysKeep(last) || (!SaysClose(last) && AskToBeKept(before))
  {
    hide SaysClose, SaysKeep;
    SaysOne(last);
    var headers, n := before + [last], |before|;
    if SaysKeep(last) {
      assert SaysKeep(headers[n]);
    } else if AskToBeKept(before) && !SaysClose(last) {
      forall i | 0 <= i < |headers| && SaysClose(headers[i])
        ensures exists j :: i < j < |headers| && SaysKeep(headers[j])
      {
        var j :| i < j < n && SaysKeep(before[j]);
        assert SaysKeep(headers[j]);
      }
    } else if AskToBeKept(headers) {
      assert !SaysClose(headers[n]);
      forall i | 0 <= i < n && SaysClose(before[i])
        ensures exists j :: i < j < n && SaysKeep(before[j])
      {
        assert SaysClose(headers[i]);
        var j :| i < j < |headers| && SaysKeep(headers[j]);
        assert SaysKeep(before[j]);
      }
    }
  }

  lemma SaysOne(h: Header)
    ensures !(SaysClose(h) && SaysKeep(h))
  {
  }

  // ---------- Numbers ----------

  lemma {:induction false} DigitsValueAppend(a: string, c: char, acc: nat)
    requires IsDigit(c) && forall i | 0 <= i < |a| :: IsDigit(a[i])
    ensures DigitsValue(a + [c], acc) == 10 * DigitsValue(a, acc) + (c as int - '0' as int)
    decreases |a|
  {
    if a == "" {
      assert ("" + [c])[1..] == "";
    } else {
      assert (a + [c])[1..] == a[1..] + [c];
      DigitsValueAppend(a[1..], c, 10 * acc + (a[0] as int - '0' as int));
    }
  }

  lemma {:induction false} DecimalValue(n: nat)
    ensures DigitsValue(Decimal(n), 0) == n
  {
    if n < 10 {
      assert [Digit(n)][1..] == "";
    } else {
      DecimalValue(n / 10);
      DigitsValueAppend(Decimal(n / 10), Digit(n % 10), 0);
    }
  }

  lemma LengthRoundTrip(n: nat)
    requires n <= INT_MAX
    ensures ParseLength(Decimal(n)) == Some(n)
  {
    DecimalValue(n);
    assert IsDigit(Decimal(n)[0]);
  }

  lemma {:induction false} DigitsEndAtSuffix(digits: string, suffix: string, acc: nat)
    requires suffix == "" || !IsDigit(suffix[0])
    requires forall i | 0 <= i < |digits| :: IsDigit(digits[i])
    ensures DigitsValue(digits + suffix, acc) == DigitsValue(digits, acc)
    decreases |digits|
  {
    if digits == "" {
      assert digits + suffix == suffix;
    } else {
      assert (digits + suffix)[1..] == digits[1..] + suffix;
      DigitsEndAtSuffix(digits[1..], suffix, 10 * acc + (digits[0] as int - '0' as int));
    }
  }

  lemma LengthOfDigits(value: string, n: nat)
    requires value != "" && IsDigit(value[0]) && DigitsValue(value, 0) == n
    ensures ParseLength(value) == if n <= INT_MAX then Some(n) else None
    ensures ParseLength(['+'] + value) == if n <= INT_MAX then Some(n) else None
    ensures ParseLength(['-'] + value) == if n == 0 then Some(0) else None
  {
    assert (['+'] + value)[1..] == value && (['-'] + value)[1..] == value;
  }

  /**
   The announced length is the leading number, whatever text follows it; it is refused when it does
   not fit an int, and when it is negative.
   */
  lemma LengthIsLeadingNumber(blank: string, n: nat, suffix: string)
    requires Blank(blank) && (suffix == "" || !IsDigit(suffix[0]))
    ensures ParseLength(blank + (Decimal(n) + suffix)) == if n <= 2147483647 then Some(n) else None
    ensures ParseLength(blank + (['+'] + (Decimal(n) + suffix))) == if n <= 2147483647 then Some(n) else None
    ensures ParseLength(blank + (['-'] + (Decimal(n) + suffix))) == if n == 0 then Some(0) else None
  {
    var value := Decimal(n) + suffix;
    DecimalValue(n);
    DigitsEndAtSuffix(Decimal(n), suffix, 0);
    assert value[0] == Decimal(n)[0];
    LengthOfDigits(value, n);
    BlanksDoNotCount(blank, value);
    BlanksDoNotCount(blank, ['+'] + value);
    BlanksDoNotCount(blank, ['-'] + value);
  }

  lemma BlanksDoNotCount(blank: string, value: string)
    requires Blank(blank) && value != "" && !IsBlank(value[0])
    ensures ParseLength(blank + value) == ParseLength(value)
  {
    SpacesAreSkipped(blank, value);
    SpacesAreSkipped("", value);
    assert "" + value == value;
  }

  // ---------- Lines ----------

  lemma {:induction false} TokenLengthBefore(token: string, rest: string)
    requires forall i | 0 <= i < |token| :: !IsSpace(token[i])
    requires rest == "" || IsSpace(rest[0])
    ensures TokenLength(token + rest) == |token|
  {
    if token == "" {
      assert token + rest == rest;
    } else {
      assert (token + rest)[1..] == token[1..] + rest;
      TokenLengthBefore(token[1..], rest);
    }
  }

  lemma {:induction false} SpacesAreSkipped(blank: string, s: string)
    requires Blank(blank) && (s == "" || !IsBlank(s[0]))
    ensures SkipSpaces(blank + s) == s
  {
    if blank == "" {
      assert blank + s == s;
    } else {
      assert (blank + s)[1..] == blank[1..] + s;
      SpacesAreSkipped(blank[1..], s);
    }
  }

  lemma NextTokenIs(blank: string, token: string, rest: string)
    requires Blank(blank) && Token(token) && (rest == "" || IsBlank(rest[0]))
    ensures NextToken(blank + (token + rest)) == Some((token, rest))
  {
    SpacesAreSkipped(blank, token + rest);
    TokenLengthBefore(token, rest);
    assert (token + rest)[..|token|] == token && (token + rest)[|token|..] == rest;
  }

  lemma NoTokenIsLeft(blank: string)
    requires Blank(blank)
    ensures NextToken(blank) == None
  {
    SpacesAreSkipped(blank, "");
    assert blank + "" == blank;
  }

  lemma SplitTargetOf(m: Message)
    requires '?' !in m.path
    ensures SplitTarget(m.Target()) == (m.path, m.QueryText())
  {
    match m.query
    case None =>
      assert IndexOf(m.path, '?') == |m.path|;
    case Some(q) =>
      IndexOfSplit(m.path, "?" + q, '?');
      assert m.path + "?" + q == m.path + ("?" + q);
      assert (m.path + "?" + q)[..|m.path|] == m.path;
      assert (m.path + "?" + q)[|m.path| + 1..] == q;
  }

  lemma RequestLineRoundTrip(m: Message)
    requires Token(m.verb) && Token(m.Target()) && '?' !in m.path
    ensures ParseRequestLine(m.RequestLine()) == Some((m.verb, m.path, m.QueryText()))
  {
    hide ParseRequestLine, SplitTarget;
    var version := "HTTP/1.1";
    assert "" + (m.verb + (" " + (m.Target() + (" " + (version + ""))))) == m.RequestLine();
    VersionDecides("", m.verb, " ", m.Target(), " ", version, "");
    SplitTargetOf(m);
  }

  /**
   A line of three fields, with any white space before, between and behind them and whatever more is there, is
   a request line exactly if the third is HTTP/1.1, and a line of fewer fields never is.
   */
  lemma VersionDecides(
    lead: string, verb: string, gap: string, target: string, sep: string, version: string, more: string)
    requires Token(verb) && Token(target) && Token(version) && Blank(lead)
    requires gap != "" && Blank(gap) && sep != "" && Blank(sep) && (more == "" || IsBlank(more[0]))
    ensures ParseRequestLine(lead + (verb + (gap + (target + (sep + (version + more)))))) ==
            if version == "HTTP/1.1" then Some((verb, SplitTarget(target).0, SplitTarget(target).1)) else None
    ensures ParseRequestLine(lead + (verb + (gap + (target + sep)))) == None
    ensures ParseRequestLine(lead + (verb + gap)) == None && ParseRequestLine(lead) == None
  {
    hide NextToken, SplitTarget;
    NextTokenIs(lead, verb, gap + (target + (sep + (version + more))));
    NextTokenIs(gap, target, sep + (version + more));
    NextTokenIs(sep, version, more);
    NextTokenIs(lead, verb, gap + (target + sep));
    NextTokenIs(gap, target, sep);
    NoTokenIsLeft(sep);
    NextTokenIs(lead, verb, gap);
    NoTokenIsLeft(gap);
    NoTokenIsLeft(lead);
  }

  lemma LineSlices(name: string, value: string)
    ensures (name + ": " + value)[..|name|] == name
    ensures (name + ": " + value)[|name| + 1..] == " " + value
    ensures name + ": " + value == name + (": " + value)
  {
  }

  lemma SkipOneBlank(value: string)
    requires value != "" && value[0] != ' ' && value[0] != '\t'
    ensures SkipBlanks(" " + value) == value
  {
    assert (" " + value)[1..] == value;
  }

  /** The parser finds the name and the value that were printed. */
  lemma HeaderPieces(h: Header)
    requires h.WellFormed()
    ensures IndexOf(h.Line(), ':') == |h.name|
    ensures Lower(h.Line()[..|h.name|]) == h.Key()
    ensures SkipBlanks(h.Line()[|h.name| + 1..]) == h.value
  {
    hide SkipBlanks, Lower, HasCrlf;
    LineSlices(h.name, h.value);
    IndexOfSplit(h.name, ": " + h.value, ':');
    SkipOneBlank(h.value);
  }

  lemma HeaderLineRoundTrip(ch: Channel, h: Header)
    requires h.WellFormed()
    ensures h.Line() != "" && ParseHeaderLine(ch, h.Line()) == ApplyHeader(ch, h.Key(), h.value)
  {
    HeaderPieces(h);
  }

  // ---------- One message ----------

  /** The parser finds the line that was printed and what was printed behind it. */
  lemma AdvanceOnLine(ch: Channel, line: string, tail: string)
    requires ch.Ready() && !ch.state.Body? && !HasCrlf(line)
    ensures Advance(ch, line + "\r\n" + tail) ==
            if ch.state.RequestLine? then OnRequestLine(ch, line, tail) else OnHeaderLine(ch, line, tail)
  {
    FindCrlfAfterLine(line, tail);
    var buffer := line + "\r\n" + tail;
    assert buffer[..|line|] == line && buffer[|line| + 2..] == tail;
  }

  lemma ConsumeFollows(w: World, ch: Channel, buffer: string, s: Step)
    requires ch.Ready() && Advance(ch, buffer) == s
    ensures s.Go? ==> s.ch.Valid() && Consume(w, ch, buffer) == Consume(w, s.ch, s.rest)
    ensures s.Reject? ==> Consume(w, ch, buffer) == Out(ch, s.rest, s.events, Close)
  {
    AdvanceKeeps(ch, buffer);
  }

  /** The parser after the request line and the first `k` header lines of a message. */
  function After(m: Message, k: nat): Channel
    requires k <= |m.headers|
  {
    var seen := m.headers[..k];
    Channel(Headers, m.verb, m.path, "HTTP/1.1", m.QueryText(), HeaderMap(seen), "",
            Announced(seen), KeepAlive(seen), m.HeadBytes(k), k)
  }

  lemma {:induction false} HeadBytesGrow(m: Message, j: nat, k: nat)
    requires j <= k <= |m.headers|
    ensures m.HeadBytes(j) <= m.HeadBytes(k)
    decreases k - j
  {
    if j < k {
      HeadBytesGrow(m, j, k - 1);
    }
  }

  lemma HeaderLengthParses(m: Message, k: nat)
    requires m.WellFormed() && k < |m.headers| && m.headers[k].Key() == "content-length"
    ensures ParseLength(m.headers[k].value).Some?
    ensures m.verb == "POST" ==> ParseLength(m.headers[k].value) == Some(|m.body|)
  {
    var h := m.headers[k];
    assert h in m.headers;
    var n: nat :| n <= INT_MAX && h.value == Decimal(n) && (m.verb == "POST" ==> n == |m.body|);
    LengthRoundTrip(n);
  }

  /** What a header must be for the parser to accept it. */
  predicate Acceptable(h: Header) {
    h.WellFormed() && (h.Key() == "content-length" ==> ParseLength(h.value).Some?)
  }

  lemma HeadersAreAcceptable(m: Message, k: nat)
    requires m.WellFormed() && k < |m.headers|
    ensures Acceptable(m.headers[k])
  {
    assert m.headers[k] in m.headers;
    if m.headers[k].Key() == "content-length" {
      HeaderLengthParses(m, k);
    }
  }

  lemma AfterNext(m: Message, k: nat)
    requires k < |m.headers| && Acceptable(m.headers[k])
    ensures ApplyHeader(After(m, k).(headerCount := k + 1, headerBytes := m.HeadBytes(k + 1)),
                        m.headers[k].Key(), m.headers[k].value) == Some(After(m, k + 1))
  {
    assert m.headers[..k + 1][..k] == m.headers[..k];
    assert m.headers[..k + 1][k] == m.headers[k];
    assert |"content-length"| != |"connection"|;
  }

  lemma CountedHeader(ch: Channel, line: string, rest: string)
    requires line != ""
    ensures var counted := ch.(headerCount := ch.headerCount + 1, headerBytes := ch.headerBytes + |line| + 2);
            var next := ParseHeaderLine(counted, line);
            OnHeaderLine(ch, line, rest) ==
            if counted.headerCount > MAX_HEADER_COUNT || counted.headerBytes > MAX_HEADER_BYTES then
              Reject(rest, [Replied(431)])
            else if next.None? then Reject(rest, [Replied(400)]) else Go(next.value, rest)
  {
  }

  /** One header line takes the parser from `k` to `k + 1` headers, or over a limit. */
  lemma HeaderStep(m: Message, k: nat, rest: string)
    requires k < |m.headers| && Acceptable(m.headers[k])
    ensures OnHeaderLine(After(m, k), m.headers[k].Line(), rest) ==
            if k + 1 > MAX_HEADER_COUNT || m.HeadBytes(k + 1) > MAX_HEADER_BYTES then Reject(rest, [Replied(431)])
            else Go(After(m, k + 1), rest)
  {
    var h, ch := m.headers[k], After(m, k);
    var counted := ch.(headerCount := k + 1, headerBytes := m.HeadBytes(k + 1));
    HeaderLineRoundTrip(counted, h);
    CountedHeader(ch, h.Line(), rest);
    assert counted == ch.(headerCount := ch.headerCount + 1, headerBytes := ch.headerBytes + |h.Line()| + 2);
    AfterNext(m, k);
  }

  /** The body length the headers announced is the length of the body that was printed. */
  lemma {:induction false} AnnouncedIsBody(m: Message, k: nat)
    requires m.WellFormed() && m.verb == "POST" && k <= |m.headers|
    ensures Announced(m.headers[..k]) == |m.body|
            || (Announced(m.headers[..k]) == 0 && forall i | 0 <= i < k :: m.headers[i].Key() != "content-length")
  {
    if k > 0 {
      AnnouncedIsBody(m, k - 1);
      assert m.headers[..k][..k - 1] == m.headers[..k - 1];
      assert m.headers[..k][k - 1] == m.headers[k - 1];
      if m.headers[k - 1].Key() == "content-length" {
        HeaderLengthParses(m, k - 1);
      }
    }
  }

  lemma AllAnnounced(m: Message)
    requires m.WellFormed() && m.verb == "POST"
    ensures Announced(m.headers) == |m.body|
  {
    AnnouncedIsBody(m, |m.headers|);
    assert m.headers[..|m.headers|] == m.headers;
  }

  /** The parser when the message has been read completely. */
  function Complete(m: Message): Channel {
    After(m, |m.headers|).(state := Done, body := m.body)
  }

  lemma CompleteMeans(m: Message)
    ensures Complete(m).ToRequest() == m.Meaning()
    ensures Complete(m).headerBytes == m.HeadBytes(|m.headers|) && Complete(m).headerCount == |m.headers|
  {
    assert m.headers[..|m.headers|] == m.headers;
  }

  /** The blank line: on to the body, straight to dispatch, or too large a body. */
  lemma BlankLine(m: Message, rest: string)
    requires m.WellFormed() && m.HeadInLimits()
    ensures var n, ch := |m.headers|, After(m, |m.headers|);
            OnHeaderLine(ch, "", rest) ==
            if |m.body| > MAX_BODY_BYTES then Reject(rest, [Replied(413)])
            else Go(ch.(state := if m.body == "" then Done else Body), rest)
  {
    assert m.headers[..|m.headers|] == m.headers;
    if m.verb == "POST" {
      AllAnnounced(m);
    }
  }

  lemma BodyRoundTrip(m: Message, rest: string)
    requires m.WellFormed() && m.InLimits() && m.body != ""
    requires After(m, |m.headers|).(state := Body).Valid()
    ensures Advance(After(m, |m.headers|).(state := Body), m.body + rest) == Go(Complete(m), rest)
  {
    assert m.headers[..|m.headers|] == m.headers;
    AllAnnounced(m);
    assert (m.body + rest)[..|m.body|] == m.body && (m.body + rest)[|m.body|..] == rest;
    assert "" + m.body == m.body;
  }

  lemma TailRoundTrip(w: World, m: Message, rest: string)
    requires m.WellFormed() && m.HeadInLimits() && After(m, |m.headers|).Valid()
    ensures var o := Consume(w, After(m, |m.headers|), m.PrintFrom(|m.headers|) + rest);
            if |m.body| > MAX_BODY_BYTES then o.events == [Replied(413)] && o.result == Close
            else Complete(m).Valid() && o == Consume(w, Complete(m), rest)
  {
    var ch := After(m, |m.headers|);
    var tail := m.body + rest;
    var buffer := m.PrintFrom(|m.headers|) + rest;
    assert buffer == "" + "\r\n" + tail;
    AdvanceOnLine(ch, "", tail);
    BlankLine(m, tail);
    ConsumeFollows(w, ch, buffer, OnHeaderLine(ch, "", tail));
    if 0 < |m.body| <= MAX_BODY_BYTES {
      BodyRoundTrip(m, rest);
      ConsumeFollows(w, ch.(state := Body), tail, Go(Complete(m), rest));
    } else if m.body == "" {
      assert tail == rest;
    }
  }

  lemma HeaderConsumed(w: World, m: Message, k: nat, tail: string)
    requires k < |m.headers| && Acceptable(m.headers[k]) && After(m, k).Valid()
    ensures var o := Consume(w, After(m, k), m.headers[k].Line() + "\r\n" + tail);
            if k + 1 > MAX_HEADER_COUNT || m.HeadBytes(k + 1) > MAX_HEADER_BYTES then
              o.events == [Replied(431)] && o.result == Close
            else
              After(m, k + 1).Valid() && o == Consume(w, After(m, k + 1), tail)
  {
    var line := m.headers[k].Line();
    AdvanceOnLine(After(m, k), line, tail);
    HeaderStep(m, k, tail);
    ConsumeFollows(w, After(m, k), line + "\r\n" + tail, OnHeaderLine(After(m, k), line, tail));
  }

  lemma PrintFromNext(m: Message, k: nat, rest: string)
    requires k < |m.headers|
    ensures m.PrintFrom(k) + rest == m.headers[k].Line() + "\r\n" + (m.PrintFrom(k + 1) + rest)
  {
    Associative(m.headers[k].Line() + "\r\n", m.PrintFrom(k + 1), rest);
  }

  lemma PrintStart(m: Message, rest: string)
    ensures m.Print() + rest == m.RequestLine() + "\r\n" + (m.PrintFrom(0) + rest)
    ensures m.Print() + rest == m.RequestLine() + ("\r\n" + (m.PrintFrom(0) + rest))
  {
    Associative(m.RequestLine() + "\r\n", m.PrintFrom(0), rest);
    Associative(m.RequestLine(), "\r\n", m.PrintFrom(0) + rest);
  }

  lemma {:induction false} HeadersRoundTrip(w: World, m: Message, k: nat, rest: string)
    requires m.WellFormed() && k <= |m.headers|
    requires After(m, k).Valid()
    ensures var o := Consume(w, After(m, k), m.PrintFrom(k) + rest);
            if !m.HeadInLimits() then o.events == [Replied(431)] && o.result == Close
            else if |m.body| > MAX_BODY_BYTES then o.events == [Replied(413)] && o.result == Close
            else Complete(m).Valid() && o == Consume(w, Complete(m), rest)
    decreases |m.headers| - k
  {
    if k == |m.headers| {
      TailRoundTrip(w, m, rest);
    } else {
      var tail := m.PrintFrom(k + 1) + rest;
      PrintFromNext(m, k, rest);
      HeadersAreAcceptable(m, k);
      HeaderConsumed(w, m, k, tail);
      HeadBytesGrow(m, k + 1, |m.headers|);
      if k + 1 <= MAX_HEADER_COUNT && m.HeadBytes(k + 1) <= MAX_HEADER_BYTES {
        HeadersRoundTrip(w, m, k + 1, rest);
      }
    }
  }

  lemma RequestLineStep(m: Message, tail: string)
    requires m.WellFormed()
    ensures OnRequestLine(FRESH, m.RequestLine(), tail) ==
            if |m.RequestLine()| + 2 > MAX_HEADER_BYTES then Reject(tail, [Replied(431)]) else Go(After(m, 0), tail)
  {
    RequestLineRoundTrip(m);
  }

  /**
   Print, then parse: a well-formed message within the limits is dispatched as the request it
   means, whatever follows it in the buffer; over a limit it is refused with the limit's status.
   */
  lemma PrintParse(w: World, m: Message, rest: string)
    requires m.WellFormed()
    ensures var o := Consume(w, FRESH, m.Print() + rest);
            var v := Dispatch(w, m.Meaning());
            if !m.HeadInLimits() then o.events == [Replied(431)] && o.result == Close
            else if !m.InLimits() then o.events == [Replied(413)] && o.result == Close
            else && o.events == [Dispatched(m.Meaning(), m.HeadBytes(|m.headers|), |m.headers|)] + v.events
                 && o.result == v.result && o.rest == rest && (!o.result.Close? ==> o.ch == FRESH)
  {
    var line, tail := m.RequestLine(), m.PrintFrom(0) + rest;
    PrintStart(m, rest);
    AdvanceOnLine(FRESH, line, tail);
    RequestLineStep(m, tail);
    ConsumeFollows(w, FRESH, line + "\r\n" + tail, OnRequestLine(FRESH, line, tail));
    HeadBytesGrow(m, 0, |m.headers|);
    if |line| + 2 <= MAX_HEADER_BYTES {
      HeadersRoundTrip(w, m, 0, rest);
      CompleteMeans(m);
    }
  }

  // ---------- Malformed headers ----------

  predicate OnlyBlanks(s: string) {
    forall i | 0 <= i < |s| :: s[i] == ' ' || s[i] == '\t'
  }

  /** A header line without a colon, or without a value behind its first one. */
  predicate Malformed(line: string) {
    ':' !in line || exists k :: 0 <= k < |line| && line[k] == ':' && ':' !in line[..k] && OnlyBlanks(line[k + 1..])
  }

  lemma {:induction false} BlanksAreSkipped(s: string)
    ensures SkipBlanks(s) == "" <==> OnlyBlanks(s)
    decreases |s|
  {
    if s != "" && (s[0] == ' ' || s[0] == '\t') {
      BlanksAreSkipped(s[1..]);
      assert OnlyBlanks(s[1..]) ==> OnlyBlanks(s) by {
        assert forall i | 0 < i < |s| :: s[i] == s[1..][i - 1];
      }
    }
  }

  lemma FirstColon(line: string, k: nat)
    requires k < |line| && line[k] == ':' && ':' !in line[..k]
    ensures IndexOf(line, ':') == k
  {
    IndexOfSplit(line[..k], line[k..], ':');
    assert line == line[..k] + line[k..];
  }

  lemma MalformedIsRejected(ch: Channel, line: string)
    requires Malformed(line)
    ensures ParseHeaderLine(ch, line) == None
  {
    var colon := IndexOf(line, ':');
    if ':' in line {
      var k :| 0 <= k < |line| && line[k] == ':' && ':' !in line[..k] && OnlyBlanks(line[k + 1..]);
      FirstColon(line, k);
      BlanksAreSkipped(line[k + 1..]);
    }
  }

  /** The request line and the first `k` headers, from header `j` on. */
  function HeadLines(m: Message, j: nat, k: nat): string
    requires j <= k <= |m.headers|
    decreases k - j
  {
    if j == k then "" else m.headers[j].Line() + "\r\n" + HeadLines(m, j + 1, k)
  }

  predicate FitsBehind(m: Message, k: nat, line: string)
    requires k <= |m.headers|
  {
    k + 1 <= 100 && m.HeadBytes(k) + |line| + 2 <= 8192
  }

  lemma HeadLinesFrom(m: Message, j: nat, k: nat, rest: string)
    requires j <= k <= |m.headers|
    ensures HeadLines(m, j, k) + rest ==
            if j == k then rest else m.headers[j].Line() + "\r\n" + (HeadLines(m, j + 1, k) + rest)
  {
    if j < k {
      Associative(m.headers[j].Line() + "\r\n", HeadLines(m, j + 1, k), rest);
    }
  }

  lemma MalformedNext(w: World, m: Message, k: nat, line: string, tail: string)
    requires k <= |m.headers| && After(m, k).Valid() && Malformed(line) && line != "" && !HasCrlf(line)
    ensures var o := Consume(w, After(m, k), line + "\r\n" + tail);
            o.events == [Replied(if FitsBehind(m, k, line) then 400 else 431)] && o.result == Close
  {
    hide Consume, Malformed, HasCrlf, ParseHeaderLine;
    AdvanceOnLine(After(m, k), line, tail);
    CountedHeader(After(m, k), line, tail);
    MalformedCounted(m, k, line);
    ConsumeFollows(w, After(m, k), line + "\r\n" + tail, OnHeaderLine(After(m, k), line, tail));
  }

  lemma {:induction false} MalformedBehindHeaders(w: World, m: Message, j: nat, k: nat, line: string, tail: string)
    requires m.WellFormed() && j <= k <= |m.headers| && After(m, j).Valid()
    requires Malformed(line) && line != "" && !HasCrlf(line)
    ensures var o := Consume(w, After(m, j), HeadLines(m, j, k) + (line + "\r\n" + tail));
            o.events == [Replied(if FitsBehind(m, k, line) then 400 else 431)] && o.result == Close
    decreases k - j
  {
    hide Consume, Malformed, HasCrlf, After, Message.HeadBytes, Message.WellFormed;
    hide HeadLines, Channel.Valid, Acceptable;
    HeadLinesFrom(m, j, k, line + "\r\n" + tail);
    if j == k {
      MalformedNext(w, m, k, line, tail);
    } else {
      var more := HeadLines(m, j + 1, k) + (line + "\r\n" + tail);
      HeadersAreAcceptable(m, j);
      HeaderConsumed(w, m, j, more);
      HeadBytesGrow(m, j + 1, k);
      if j + 1 <= MAX_HEADER_COUNT && m.HeadBytes(j + 1) <= MAX_HEADER_BYTES {
        MalformedBehindHeaders(w, m, j + 1, k, line, tail);
      }
    }
  }

  lemma MalformedCounted(m: Message, k: nat, line: string)
    requires k <= |m.headers| && Malformed(line)
    ensures var ch := After(m, k);
            var counted := ch.(headerCount := ch.headerCount + 1, headerBytes := ch.headerBytes + |line| + 2);
            ParseHeaderLine(counted, line) == None
  {
    var ch := After(m, k);
    MalformedIsRejected(ch.(headerCount := ch.headerCount + 1, headerBytes := ch.headerBytes + |line| + 2), line);
  }

  /**
   A request whose next header line has no colon, or no value, is refused with 400, or with 431 when that
   line takes it over a limit, whatever the headers in front of it and the bytes behind it.
   */
  lemma MalformedHeaderIsRefused(w: World, m: Message, k: nat, line: string, tail: string)
    requires m.WellFormed() && k <= |m.headers| && Malformed(line) && line != "" && !HasCrlf(line)
    ensures var o := Consume(w, FRESH, m.RequestLine() + "\r\n" + (HeadLines(m, 0, k) + (line + "\r\n" + tail)));
            o.events == [Replied(if FitsBehind(m, k, line) then 400 else 431)] && o.result == Close
  {
    hide Consume, Malformed, HasCrlf, HeadLines;
    var first, rest := m.RequestLine(), HeadLines(m, 0, k) + (line + "\r\n" + tail);
    RequestLineIsLine(m);
    AdvanceOnLine(FRESH, first, rest);
    RequestLineStep(m, rest);
    ConsumeFollows(w, FRESH, first + "\r\n" + rest, OnRequestLine(FRESH, first, rest));
    HeadBytesGrow(m, 0, k);
    if |first| + 2 <= MAX_HEADER_BYTES {
      MalformedBehindHeaders(w, m, 0, k, line, tail);
    }
  }

  lemma RequestLineIsLine(m: Message)
    requires m.WellFormed()
    ensures !HasCrlf(m.RequestLine())
  {
    var tail := " HTTP/1.1";
    assert forall i | 0 <= i < |tail| :: tail[i] != '\n';
    assert forall i | 0 <= i < |m.RequestLine()| :: m.RequestLine()[i] != '\n';
  }

  // ---------- Pipelines ----------

  function PrintAll(messages: seq<Message>): string {
    if messages == [] then "" else messages[0].Print() + PrintAll(messages[1..])
  }

  /** The well-formed messages that the gateway serves on a connection it then keeps. */
  ghost predicate Served(w: World, m: Message) {
    m.WellFormed() && m.InLimits() && Dispatch(w, m.Meaning()).result.Continue?
  }

  /** The message's last accept header, if it has one, does not mention an event stream. */
  ghost predicate AcceptsNoEvents(m: Message) {
    forall i | 0 <= i < |m.headers| && IsLast(m.headers, i) && m.headers[i].Key() == "accept" ::
      !Contains(m.headers[i].value, "text/event-stream")
  }

  lemma AcceptHeader(m: Message)
    ensures AcceptsNoEvents(m) <==>
            !("accept" in HeaderMap(m.headers) && Contains(HeaderMap(m.headers)["accept"], "text/event-stream"))
  {
    hide Contains, IsLast;
    HeaderMapIsExact(m.headers);
  }

  /**
   Which printed requests the gateway serves on a connection that it keeps: a GET of a file it has that
   asks for no event stream, or a POST to the root, unless it asks for the close.
   */
  lemma ServedIff(w: World, m: Message)
    requires m.WellFormed() && m.InLimits()
    ensures Served(w, m) <==>
            && AskToBeKept(m.headers)
            && if m.verb == "GET" then
                 m.path != "/events" && AcceptsNoEvents(m)
                 && w.file(if m.path == "/" then "index.html" else m.path) == 200
               else
                 m.verb == "POST" && m.path == "/"
  {
    WhatRequestsGet(w, m.Meaning());
    KeptUnlessClosed(m.headers);
    AcceptHeader(m);
    hide Dispatch, HeaderMap, KeepAlive, Contains, AcceptsNoEvents;
    assert "GET"[0] != "POST"[0];
  }

  /** The requests that were dispatched, in order. */
  function Requests(events: seq<Event>): seq<Request> {
    if events == [] then []
    else (if events[0].Dispatched? then [events[0].request] else []) + Requests(events[1..])
  }

  function Meanings(messages: seq<Message>): seq<Request> {
    seq(|messages|, i requires 0 <= i < |messages| => messages[i].Meaning())
  }

  lemma {:induction false} RequestsAppend(a: seq<Event>, b: seq<Event>)
    ensures Requests(a + b) == Requests(a) + Requests(b)
  {
    if a == [] {
      assert a + b == b;
    } else {
      var first := if a[0].Dispatched? then [a[0].request] else [];
      assert (a + b)[1..] == a[1..] + b;
      RequestsAppend(a[1..], b);
      Associative(first, Requests(a[1..]), Requests(b));
    }
  }

  lemma {:induction false} RepliesAreNoRequests(events: seq<Event>)
    requires forall e | e in events :: e.Replied?
    ensures Requests(events) == []
  {
    if events != [] {
      assert events[0] in events;
      RepliesAreNoRequests(events[1..]);
    }
  }

  lemma RequestsOfOne(w: World, e: Event, r: Request)
    requires e.Dispatched?
    ensures Requests([e] + Dispatch(w, r).events) == [e.request]
  {
    var replies := Dispatch(w, r).events;
    RepliesAreNoRequests(replies);
    assert ([e] + replies)[1..] == replies;
    assert [e.request] + [] == [e.request];
  }

  lemma NothingPrinted(messages: seq<Message>)
    requires PrintAll(messages) == ""
    ensures messages == []
  {
  }

  lemma {:induction false} PipelineIsDispatched(w: World, messages: seq<Message>)
    requires forall m | m in messages :: Served(w, m)
    ensures var d := Drive(w, FRESH, PrintAll(messages));
            d.ch == FRESH && d.rest == "" && d.ended.Open? && Requests(d.events) == Meanings(messages)
  {
    hide Consume, Dispatch;
    if messages == [] {
      DriveNothing(w);
    } else {
      var m, tail := messages[0], PrintAll(messages[1..]);
      assert m in messages;
      PrintParse(w, m, tail);
      var o := Consume(w, FRESH, m.Print() + tail);
      RequestsOfOne(w, o.events[0], m.Meaning());
      PipelineIsDispatched(w, messages[1..]);
      assert Meanings(messages) == [m.Meaning()] + Meanings(messages[1..]);
      if tail == "" {
        NothingPrinted(messages[1..]);
      } else {
        RequestsAppend(o.events, Drive(w, FRESH, tail).events);
      }
    }
  }

  lemma PrintedVersion(m: Message, tail: string)
    requires ' ' !in m.verb && ' ' !in m.Target() && m.verb != ""
    ensures VersionField(m.RequestLine() + tail, |m.RequestLine()|) == Some("HTTP/1.1")
  {
    hide IndexOf;
    var buffer := m.RequestLine() + tail;
    var afterVerb := m.Target() + " " + ("HTTP/1.1" + tail);
    assert buffer == m.verb + " " + afterVerb;
    FirstSpace(m.verb, afterVerb);
    assert buffer[|m.verb| + 1..] == afterVerb;
    FirstSpace(m.Target(), "HTTP/1.1" + tail);
    var sp2 := |m.verb| + 1 + |m.Target()|;
    assert buffer[sp2 + 1..|m.RequestLine()|] == "HTTP/1.1";
  }

  lemma PrintedLooksLikeHttp(m: Message, rest: string)
    requires m.WellFormed()
    ensures LooksLikeHttp(m.Print() + rest)
  {
    var line, tail := m.RequestLine(), m.PrintFrom(0) + rest;
    PrintStart(m, rest);
    FindCrlfAfterLine(line, tail);
    assert ' ' !in m.verb && ' ' !in m.Target();
    PrintedVersion(m, "\r\n" + tail);
  }

  lemma FirstHttpBytes(w: World, stream: string)
    requires LooksLikeHttp(stream) && !StartsWith(stream, "PING|") && !StartsWith(stream, "CHAT|")
    ensures var d := Drive(w, FRESH, stream);
            Feed(w, ACCEPTED, stream) == Connection(Http, d.ch, d.rest, d.events, [], d.ended)
  {
    hide Drive, LooksLikeHttp, StartsWith;
    assert "" + stream == stream;
    var d := Drive(w, FRESH, stream);
    assert [] + d.events == d.events;
  }

  /** A request that is served is a GET or a POST, so no detection takes it for the line protocol. */
  lemma ServedIsNoLine(w: World, m: Message, rest: string)
    requires Served(w, m)
    ensures !StartsWith(m.Print() + rest, "PING|") && !StartsWith(m.Print() + rest, "CHAT|")
  {
    hide Message.PrintFrom;
    ServedIff(w, m);
    var stream := m.Print() + rest;
    assert stream[0] == m.verb[0] && stream[1] == m.verb[1];
  }

  /** In any cut a pipeline of served requests is driven as a whole. */
  lemma PipelineIsDriven(w: World, messages: seq<Message>, cut: seq<string>)
    requires messages != [] && cut != [] && Concat(cut) == PrintAll(messages)
    requires forall m | m in messages :: Served(w, m)
    ensures FeedAll(w, ACCEPTED, cut) ==
            Connection(Http, FRESH, "", Drive(w, FRESH, PrintAll(messages)).events, [], Open)
  {
    hide Drive, Served, FeedAll, Feed;
    FeedAllIsFeed(w, ACCEPTED, cut);
    assert messages[0] in messages;
    ServedIsWellFormed(w, messages[0]);
    PrintedLooksLikeHttp(messages[0], PrintAll(messages[1..]));
    ServedIsNoLine(w, messages[0], PrintAll(messages[1..]));
    FirstHttpBytes(w, PrintAll(messages));
    PipelineIsDispatched(w, messages);
  }

  lemma ServedIsWellFormed(w: World, m: Message)
    requires Served(w, m)
    ensures m.WellFormed()
  {
  }

  /**
   However TCP cuts a pipeline of served requests, a fresh connection dispatches exactly these
   requests, in this order, and waits for the next one with an empty buffer.
   */
  lemma PipelineInAnyCut(w: World, messages: seq<Message>, cut: seq<string>)
    requires messages != [] && cut != [] && Concat(cut) == PrintAll(messages)
    requires forall m | m in messages :: Served(w, m)
    ensures var c := FeedAll(w, ACCEPTED, cut);
            c.protocol.Http? && c.ended.Open? && c.channel == FRESH && c.buffer == ""
            && Requests(c.requests) == Meanings(messages)
  {
    PipelineIsDriven(w, messages, cut);
    PipelineIsDispatched(w, messages);
  }
}
