/**
 Server-sent events in HTTP chunks. The encoder is the gateway's; the two decoders follow the
 standards a client follows: chunked transfer coding (section 7.1 of RFC 9112) and event streams
 (section 9.2.6 of the WHATWG HTML Standard).
 */
module Framing {
  import opened Text
  import opened Lines

  // ---------- Encoder ----------

  function DataLine(value: string): string {
    "data: " + value + "\n"
  }

  /** The `data:` lines of a message; one trailing LF of the data makes no line of its own. */
  function DataLines(data: string): string
    decreases |data|
  {
    var i := IndexOf(data, '\n');
    if i == |data| then DataLine(data)
    else if i + 1 == |data| then DataLine(data[..i])
    else DataLine(data[..i]) + DataLines(data[i + 1..])
  }

  function FieldLine(name: string, value: string): string {
    if value == "" then "" else name + ": " + value + "\n"
  }

  function FormatSse(data: string, eventType: string, id: string): string {
    FieldLine("event", eventType) + FieldLine("id", id) + DataLines(data) + "\n"
  }

  function HexDigit(n: nat): char
    requires n < 16
  {
    if n < 10 then ('0' as int + n) as char else ('a' as int + n - 10) as char
  }

  /** `%zx` */
  function Hex(n: nat): (s: string)
    ensures s != ""
  {
    if n < 16 then [HexDigit(n)] else Hex(n / 16) + [HexDigit(n % 16)]
  }

  function Chunk(data: string): string {
    if data == "" then "" else Hex(|data|) + "\r\n" + data + "\r\n"
  }

  const CHUNK_END := "0\r\n\r\n"

  /** The data lines that are still to be written when the first `start` bytes are done. */
  function LinesFrom(data: string, start: nat): string
    requires start <= |data|
  {
    if start == |data| && data != "" then "" else DataLines(data[start..])
  }

  lemma LinesFromStep(data: string, start: nat, end: nat)
    requires start <= end < |data| && end == start + IndexOf(data[start..], '\n')
    ensures LinesFrom(data, start) == DataLine(data[start..end]) + LinesFrom(data, end + 1)
  {
    assert data[start..][..end - start] == data[start..end];
    assert data[start..][end - start + 1..] == data[end + 1..];
    if end + 1 == |data| {
      assert DataLine(data[start..end]) + "" == DataLine(data[start..end]);
    }
  }

  lemma LinesFromStart(data: string)
    ensures LinesFrom(data, 0) == DataLines(data)
  {
    assert data[0..] == data;
  }

  lemma LinesFromLast(data: string, start: nat)
    requires start <= |data| && IndexOf(data[start..], '\n') == |data| - start
    ensures LinesFrom(data, start) == if start == |data| && data != "" then "" else DataLine(data[start..])
  {
  }

  /** Writes the data lines and the empty line that ends the message. */
  method WriteData(head: string, data: string) returns (message: string)
    ensures message == head + DataLines(data) + "\n"
  {
    hide DataLine, DataLines, LinesFrom, IndexOf;
    message := head;
    var start := 0;
    assert data[0..] == data;
    LinesFromStart(data);
    while IndexOf(data[start..], '\n') < |data| - start
      invariant 0 <= start <= |data|
      invariant head + DataLines(data) == message + LinesFrom(data, start)
      decreases |data| - start
    {
      var end := start + IndexOf(data[start..], '\n');
      LinesFromStep(data, start, end);
      Associative(message, DataLine(data[start..end]), LinesFrom(data, end + 1));
      message := message + DataLine(data[start..end]);
      start := end + 1;
    }
    LinesFromLast(data, start);
    if start < |data| {
      message := message + DataLine(data[start..]);
    } else if data == "" {
      message := message + DataLine("");
    } else {
      assert message + "" == message;
    }
    message := message + "\n";
  }

  method FormatSseMessage(data: string, eventType: string, id: string) returns (message: string)
    ensures message == FormatSse(data, eventType, id)
  {
    message := "";
    if eventType != "" {
      message := "event" + ": " + eventType + "\n";
    }
    assert message == FieldLine("event", eventType);
    if id != "" {
      message := message + ("id" + ": " + id + "\n");
    } else {
      assert message + "" == message;
    }
    message := WriteData(message, data);
  }

  // ---------- Chunked decoder ----------

  predicate IsHexDigit(c: char) {
    '0' <= c <= '9' || 'a' <= c <= 'f' || 'A' <= c <= 'F'
  }

  function HexValueOf(c: char): nat
    requires IsHexDigit(c)
  {
    if '0' <= c <= '9' then c as int - '0' as int
    else if 'a' <= c <= 'f' then c as int - 'a' as int + 10
    else c as int - 'A' as int + 10
  }

  predicate AllHex(s: string) {
    forall i | 0 <= i < |s| :: IsHexDigit(s[i])
  }

  function HexValue(s: string): nat
    requires AllHex(s)
  {
    if s == "" then 0 else 16 * HexValue(s[..|s| - 1]) + HexValueOf(s[|s| - 1])
  }

  /** The chunk size in a size line, whose extensions, if any, start with ';' and are ignored. */
  function ChunkSize(line: string): Option<nat> {
    var digits := line[..IndexOf(line, ';')];
    if digits != "" && AllHex(digits) then Some(HexValue(digits)) else None
  }

  /** What follows the trailer section, which ends with an empty line. */
  function SkipTrailer(s: string): Option<string>
    decreases |s|
  {
    var i := FindCrlf(s);
    if i == |s| then None
    else if i == 0 then Some(s[2..])
    else SkipTrailer(s[i + 2..])
  }

  datatype Body = Incomplete | Complete(content: string, rest: string)

  /** Decodes one chunked body, up to and including its last chunk and trailer. */
  function Dechunk(s: string): Body
    decreases |s|
  {
    var i := FindCrlf(s);
    if i == |s| then Incomplete
    else
      match ChunkSize(s[..i])
      case None => Incomplete
      case Some(n) =>
        var after := s[i + 2..];
        if n == 0 then
          match SkipTrailer(after)
          case None => Incomplete
          case Some(rest) => Complete("", rest)
        else if |after| < n + 2 || after[n..n + 2] != "\r\n" then Incomplete
        else
          match Dechunk(after[n + 2..])
          case Incomplete => Incomplete
          case Complete(content, rest) => Complete(after[..n] + content, rest)
  }

  lemma {:induction false} HexRoundTrip(n: nat)
    ensures AllHex(Hex(n)) && HexValue(Hex(n)) == n
  {
    if n < 16 {
      assert Hex(n)[..0] == "";
    } else {
      HexRoundTrip(n / 16);
      assert Hex(n)[..|Hex(n)| - 1] == Hex(n / 16);
    }
  }

  lemma HexLineIsSize(n: nat)
    ensures ChunkSize(Hex(n)) == Some(n) && !HasCrlf(Hex(n))
  {
    HexRoundTrip(n);
    var h := Hex(n);
    assert IndexOf(h, ';') == |h|;
    assert h[..|h|] == h;
  }

  lemma LastChunkEnds(rest: string)
    ensures Dechunk(CHUNK_END + rest) == Complete("", rest)
  {
    var tail := "\r\n" + rest;
    assert CHUNK_END + rest == "0" + "\r\n" + tail;
    HexLineIsSize(0);
    assert Hex(0) == "0";
    FindCrlfAfterLine("0", tail);
    assert ("0" + "\r\n" + tail)[..1] == "0" && ("0" + "\r\n" + tail)[3..] == tail;
    assert tail == "" + "\r\n" + rest;
    FindCrlfAfterLine("", rest);
  }

  lemma ChunkDecodes(data: string, tail: string)
    requires data != ""
    ensures Dechunk(Chunk(data) + tail) ==
            match Dechunk(tail)
            case Incomplete => Incomplete
            case Complete(content, rest) => Complete(data + content, rest)
  {
    var size, after := Hex(|data|), data + "\r\n" + tail;
    assert Chunk(data) + tail == size + "\r\n" + after;
    HexLineIsSize(|data|);
    FindCrlfAfterLine(size, after);
    assert (size + "\r\n" + after)[..|size|] == size;
    assert (size + "\r\n" + after)[|size| + 2..] == after;
    assert after[..|data|] == data && after[|data|..|data| + 2] == "\r\n" && after[|data| + 2..] == tail;
  }

  lemma EmptyChunk()
    ensures Chunk("") == ""
  {
  }

  function Chunks(payloads: seq<string>): string {
    if payloads == [] then "" else Chunk(payloads[0]) + Chunks(payloads[1..])
  }

  /** Chunked bodies decode to what was put into them; an empty payload adds nothing and ends nothing. */
  lemma {:induction false} ChunksDecode(payloads: seq<string>, rest: string)
    ensures Dechunk(Chunks(payloads) + CHUNK_END + rest) == Complete(Concat(payloads), rest)
  {
    hide Chunk, Dechunk;
    if payloads == [] {
      assert "" + CHUNK_END + rest == CHUNK_END + rest;
      LastChunkEnds(rest);
    } else {
      ChunksDecode(payloads[1..], rest);
      var tail := Chunks(payloads[1..]) + CHUNK_END + rest;
      assert Chunks(payloads) + CHUNK_END + rest == Chunk(payloads[0]) + tail;
      if payloads[0] == "" {
        EmptyChunk();
        assert "" + tail == tail;
        assert "" + Concat(payloads[1..]) == Concat(payloads[1..]);
      } else {
        ChunkDecodes(payloads[0], tail);
      }
    }
  }

  lemma {:induction false} SkipTrailerExtends(s: string, more: string)
    requires SkipTrailer(s).Some?
    ensures SkipTrailer(s + more) == Some(SkipTrailer(s).value + more)
    decreases |s|
  {
    FindCrlfStable(s, more);
    var i := FindCrlf(s);
    assert (s + more)[i + 2..] == s[i + 2..] + more;
    if i > 0 {
      SkipTrailerExtends(s[i + 2..], more);
    }
  }

  /** What is behind the size line of a body's first chunk, and how large that chunk is. */
  predicate FirstChunk(s: string, n: nat, after: string) {
    var i := FindCrlf(s);
    i < |s| && ChunkSize(s[..i]) == Some(n) && after == s[i + 2..]
  }

  lemma FirstChunkExtends(s: string, n: nat, after: string, more: string)
    requires FirstChunk(s, n, after)
    ensures FirstChunk(s + more, n, after + more)
  {
    hide ChunkSize;
    FindCrlfStable(s, more);
    var i := FindCrlf(s);
    assert (s + more)[..i] == s[..i];
    assert (s + more)[i + 2..] == s[i + 2..] + more;
  }

  lemma ChunkStep(s: string, n: nat, after: string)
    requires FirstChunk(s, n, after) && n > 0 && |after| >= n + 2 && after[n..n + 2] == "\r\n"
    ensures Dechunk(s) == match Dechunk(after[n + 2..])
                          case Incomplete => Incomplete
                          case Complete(content, rest) => Complete(after[..n] + content, rest)
  {
    hide FindCrlf, ChunkSize;
  }

  lemma LastChunkStep(s: string, after: string)
    requires FirstChunk(s, 0, after) && SkipTrailer(after).Some?
    ensures Dechunk(s) == Complete("", SkipTrailer(after).value)
  {
    hide FindCrlf, ChunkSize, SkipTrailer;
  }

  lemma CompleteBody(s: string) returns (n: nat, after: string)
    requires Dechunk(s).Complete?
    ensures FirstChunk(s, n, after) && |after| < |s|
    ensures n == 0 ==> SkipTrailer(after).Some?
    ensures n > 0 ==> |after| >= n + 2 && after[n..n + 2] == "\r\n" && Dechunk(after[n + 2..]).Complete?
  {
    hide FindCrlf, ChunkSize, SkipTrailer;
    var i := FindCrlf(s);
    n, after := ChunkSize(s[..i]).value, s[i + 2..];
  }

  /** A body that is complete stays so, with the same content, when more bytes follow it. */
  lemma {:induction false} DechunkExtends(s: string, more: string)
    requires Dechunk(s).Complete?
    ensures Dechunk(s + more) == Dechunk(s).(rest := Dechunk(s).rest + more)
    decreases |s|
  {
    hide Dechunk, FirstChunk, SkipTrailer;
    var n, after := CompleteBody(s);
    FirstChunkExtends(s, n, after, more);
    if n == 0 {
      SkipTrailerExtends(after, more);
      LastChunkStep(s, after);
      LastChunkStep(s + more, after + more);
    } else {
      assert (after + more)[..n] == after[..n];
      assert (after + more)[n..n + 2] == after[n..n + 2];
      assert (after + more)[n + 2..] == after[n + 2..] + more;
      DechunkExtends(after[n + 2..], more);
      ChunkStep(s, n, after);
      ChunkStep(s + more, n, after + more);
    }
  }

  /** A stream that was cut short never passes for a complete one. */
  lemma TruncationIsDetected(payloads: seq<string>, cut: nat)
    requires cut < |Chunks(payloads) + CHUNK_END|
    ensures Dechunk((Chunks(payloads) + CHUNK_END)[..cut]).Incomplete?
  {
    var whole := Chunks(payloads) + CHUNK_END;
    var part, missing := whole[..cut], whole[cut..];
    assert part + missing == whole;
    ChunksDecode(payloads, "");
    assert whole + "" == whole;
    if Dechunk(part).Complete? {
      DechunkExtends(part, missing);
    }
  }

  // ---------- Event-stream decoder ----------

  datatype Event = Event(kind: string, data: string)

  function FirstBreak(s: string): (i: nat)
    ensures i <= |s|
    ensures i < |s| ==> s[i] == '\r' || s[i] == '\n'
    ensures '\r' !in s[..i] && '\n' !in s[..i]
  {
    if s == "" || s[0] == '\r' || s[0] == '\n' then 0
    else
      var j := FirstBreak(s[1..]);
      assert s[..1 + j] == [s[0]] + s[1..][..j];
      1 + j
  }

  /** Buffers of the event under construction, and the events dispatched so far. */
  datatype Parser = Parser(data: string, kind: string, events: seq<Event>)

  const START := Parser("", "", [])

  function FieldSplit(line: string): (string, string) {
    var colon := IndexOf(line, ':');
    if colon == |line| then (line, "")
    else
      var value := line[colon + 1..];
      (line[..colon], if value != "" && value[0] == ' ' then value[1..] else value)
  }

  function OnField(p: Parser, name: string, value: string): Parser {
    if name == "event" then p.(kind := value)
    else if name == "data" then p.(data := p.data + value + "\n")
    else p
  }

  /** An empty line dispatches the event, unless its data buffer is empty. */
  function DispatchEvent(p: Parser): Parser {
    if p.data == "" then Parser("", "", p.events)
    else Parser("", "", p.events + [Event(if p.kind == "" then "message" else p.kind, DropLf(p.data))])
  }

  function DropLf(s: string): string {
    if s != "" && s[|s| - 1] == '\n' then s[..|s| - 1] else s
  }

  function OnLine(p: Parser, line: string): Parser {
    if line == "" then DispatchEvent(p)
    else if line[0] == ':' then p
    else OnField(p, FieldSplit(line).0, FieldSplit(line).1)
  }

  /** Lines end with CRLF, LF or CR; what is not terminated is not processed. */
  function ParseEvents(p: Parser, s: string): Parser
    decreases |s|
  {
    var i := FirstBreak(s);
    if i == |s| then p
    else
      var next := if CrlfAt(s, i) then i + 2 else i + 1;
      ParseEvents(OnLine(p, s[..i]), s[next..])
  }

  function Decode(stream: string): seq<Event> {
    ParseEvents(START, stream).events
  }

  // ---------- Round trip ----------

  predicate NoBreaks(s: string) {
    '\r' !in s && '\n' !in s
  }

  lemma FirstBreakAfter(line: string, tail: string)
    requires NoBreaks(line)
    ensures FirstBreak(line + "\n" + tail) == |line|
  {
    var s := line + "\n" + tail;
    assert s[|line|] == '\n';
    assert forall k | 0 <= k < |line| :: s[k] == line[k] && s[k] in line;
  }

  lemma LfLine(p: Parser, line: string, tail: string)
    requires NoBreaks(line)
    ensures ParseEvents(p, line + "\n" + tail) == ParseEvents(OnLine(p, line), tail)
  {
    var s := line + "\n" + tail;
    FirstBreakAfter(line, tail);
    assert s[..|line|] == line && s[|line| + 1..] == tail;
  }

  lemma FieldLineSplits(name: string, value: string)
    requires ':' !in name
    ensures FieldSplit(name + ": " + value) == (name, value)
  {
    var line := name + ": " + value;
    IndexOfSplit(name, ": " + value, ':');
    assert line == name + (": " + value);
    assert line[..|name|] == name;
    assert line[|name| + 1..] == " " + value;
    assert (" " + value)[1..] == value;
  }

  lemma DataLineDecodes(p: Parser, value: string, tail: string)
    requires NoBreaks(value)
    ensures ParseEvents(p, DataLine(value) + tail) == ParseEvents(p.(data := p.data + value + "\n"), tail)
  {
    LfLine(p, "data: " + value, tail);
    assert ':' !in "data";
    FieldLineSplits("data", value);
    assert "data" + ": " + value == "data: " + value;
  }

  lemma DropLfCut(data: string, i: nat)
    requires i + 1 < |data| && data[i] == '\n'
    ensures DropLf(data) == data[..i] + "\n" + DropLf(data[i + 1..])
  {
  }

  lemma BufferGrows(buffer: string, first: string, rest: string)
    ensures buffer + first + "\n" + rest + "\n" == buffer + (first + "\n" + rest) + "\n"
  {
  }

  /** The data lines of a message fill the data buffer with the data, up to one trailing LF. */
  lemma {:induction false} DataLinesDecode(p: Parser, data: string, tail: string)
    requires '\r' !in data
    ensures ParseEvents(p, DataLines(data) + tail) == ParseEvents(p.(data := p.data + DropLf(data) + "\n"), tail)
    decreases |data|
  {
    var i := IndexOf(data, '\n');
    var first := data[..i];
    assert NoBreaks(first);
    if i == |data| {
      assert first == data;
      DataLineDecodes(p, data, tail);
    } else if i + 1 == |data| {
      DataLineDecodes(p, first, tail);
    } else {
      var rest := data[i + 1..];
      Associative(DataLine(first), DataLines(rest), tail);
      DataLineDecodes(p, first, DataLines(rest) + tail);
      DataLinesDecode(p.(data := p.data + first + "\n"), rest, tail);
      DropLfCut(data, i);
      BufferGrows(p.data, first, DropLf(rest));
    }
  }

  /** A field other than data is kept as the event's type or ignored. */
  lemma OtherFieldDecodes(p: Parser, name: string, value: string, tail: string)
    requires name == "event" || name == "id"
    requires NoBreaks(value)
    ensures ParseEvents(p, FieldLine(name, value) + tail) ==
            ParseEvents(if name == "event" && value != "" then p.(kind := value) else p, tail)
  {
    if value == "" {
      assert "" + tail == tail;
    } else {
      assert NoBreaks(name) && ':' !in name;
      assert NoBreaks(name + ": " + value);
      LfLine(p, name + ": " + value, tail);
      FieldLineSplits(name, value);
    }
  }

  function KindName(eventType: string): string {
    if eventType == "" then "message" else eventType
  }

  lemma FormatParts(data: string, eventType: string, id: string, tail: string)
    ensures FormatSse(data, eventType, id) + tail ==
            FieldLine("event", eventType) + (FieldLine("id", id) + (DataLines(data) + ("\n" + tail)))
  {
  }

  lemma EmptyLineDispatches(p: Parser, tail: string)
    ensures ParseEvents(p, "\n" + tail) == ParseEvents(DispatchEvent(p), tail)
  {
    LfLine(p, "", tail);
    assert "" + "\n" + tail == "\n" + tail;
  }

  /** One formatted message, whatever follows it, is one event: its type, and its data up to one trailing LF. */
  lemma MessageDecodes(events: seq<Event>, data: string, eventType: string, id: string, tail: string)
    requires '\r' !in data && NoBreaks(eventType) && NoBreaks(id)
    ensures ParseEvents(Parser("", "", events), FormatSse(data, eventType, id) + tail) ==
            ParseEvents(Parser("", "", events + [Event(KindName(eventType), DropLf(data))]), tail)
  {
    hide DataLines, FormatSse, FieldLine, ParseEvents;
    var p := Parser("", "", events);
    var typed := p.(kind := eventType);
    var ending := "\n" + tail;
    var lines := DataLines(data) + ending;
    FormatParts(data, eventType, id, tail);
    OtherFieldDecodes(p, "event", eventType, FieldLine("id", id) + lines);
    OtherFieldDecodes(typed, "id", id, lines);
    DataLinesDecode(typed, data, ending);
    var filled := typed.(data := typed.data + DropLf(data) + "\n");
    EmptyLineDispatches(filled, tail);
    assert typed.data + DropLf(data) == DropLf(data);
    assert filled.data[..|filled.data| - 1] == DropLf(data);
  }

  /** The id that a client remembers of a message: the value of its last id field. */
  function IdRead(s: string): string
    decreases |s|
  {
    var i := IndexOf(s, '\n');
    if i == |s| || i == 0 then ""
    else
      var later := IdRead(s[i + 1..]);
      if later == "" && "id: " <= s[..i] then s[4..i] else later
  }

  lemma IdLine(line: string, tail: string)
    requires line != "" && '\n' !in line
    ensures IdRead(line + "\n" + tail) ==
            if IdRead(tail) == "" && "id: " <= line then line[4..] else IdRead(tail)
  {
    IndexOfAfter(line, tail);
    var s := line + "\n" + tail;
    assert s[..|line|] == line && s[|line| + 1..] == tail;
  }

  lemma {:induction false} DataHasNoId(data: string, tail: string)
    ensures IdRead(DataLines(data) + "\n" + tail) == ""
    decreases |data|
  {
    hide IdRead, IndexOf;
    var i := IndexOf(data, '\n');
    var ending := "\n" + tail;
    BlankEnds(tail);
    assert DataLines(data) + "\n" + tail == DataLines(data) + ending;
    if i + 1 < |data| {
      var rest := DataLines(data[i + 1..]);
      DataHasNoId(data[i + 1..], tail);
      assert rest + "\n" + tail == rest + ending;
      assert DataLines(data) + ending == "data: " + data[..i] + "\n" + (rest + ending);
      DataIsNoId(data[..i]);
      IdLine("data: " + data[..i], rest + ending);
    } else {
      assert i == |data| ==> data[..i] == data;
      assert DataLines(data) + ending == "data: " + data[..i] + "\n" + ending;
      DataIsNoId(data[..i]);
      IdLine("data: " + data[..i], ending);
    }
  }

  lemma DataIsNoId(line: string)
    ensures !("id: " <= "data: " + line)
  {
    assert ("data: " + line)[0] == 'd' && "id: "[0] == 'i';
  }

  lemma BlankEnds(tail: string)
    ensures IdRead("\n" + tail) == ""
  {
    assert ("\n" + tail)[0] == '\n';
  }

  lemma TypeIsNoId(eventType: string, rest: string)
    requires '\n' !in eventType
    ensures IdRead(FieldLine("event", eventType) + rest) == IdRead(rest)
  {
    hide IdRead;
    if eventType == "" {
      assert "" + rest == rest;
    } else {
      var line := "event: " + eventType;
      assert FieldLine("event", eventType) + rest == line + "\n" + rest;
      assert line[0] == 'e' && "id: "[0] == 'i';
      assert !("id: " <= line);
      IdLine(line, rest);
    }
  }

  lemma IdFieldIsRead(id: string, rest: string)
    requires '\n' !in id && IdRead(rest) == ""
    ensures IdRead(FieldLine("id", id) + rest) == id
  {
    hide IdRead;
    if id == "" {
      assert "" + rest == rest;
    } else {
      var line := "id: " + id;
      assert FieldLine("id", id) + rest == line + "\n" + rest;
      assert "id: " <= line && line[4..] == id;
      IdLine(line, rest);
    }
  }

  /** A formatted message carries its id, whatever its type and data. */
  lemma IdIsRead(data: string, eventType: string, id: string, tail: string)
    requires '\n' !in eventType && '\n' !in id
    ensures IdRead(FormatSse(data, eventType, id) + tail) == id
  {
    hide IdRead, DataLines, FieldLine;
    var lines := DataLines(data) + ("\n" + tail);
    FormatParts(data, eventType, id, tail);
    DataHasNoId(data, tail);
    assert DataLines(data) + "\n" + tail == lines;
    IdFieldIsRead(id, lines);
    TypeIsNoId(eventType, FieldLine("id", id) + lines);
  }

  datatype Message = Message(data: string, eventType: string, id: string) {
    predicate WellFormed() {
      NoBreaks(eventType) && NoBreaks(id)
    }

    function Format(): string {
      FormatSse(data, eventType, id)
    }

    function Meaning(): Event {
      Event(KindName(eventType), DropLf(data))
    }
  }

  function Formats(messages: seq<Message>): seq<string> {
    seq(|messages|, i requires 0 <= i < |messages| => messages[i].Format())
  }

  function Meanings(messages: seq<Message>): seq<Event> {
    seq(|messages|, i requires 0 <= i < |messages| => messages[i].Meaning())
  }

  lemma FormatsCons(messages: seq<Message>)
    requires messages != []
    ensures Concat(Formats(messages)) == messages[0].Format() + Concat(Formats(messages[1..]))
    ensures Meanings(messages) == [messages[0].Meaning()] + Meanings(messages[1..])
  {
    assert Formats(messages)[1..] == Formats(messages[1..]);
  }

  lemma MessageStep(events: seq<Event>, m: Message, tail: string)
    requires m.WellFormed() && '\r' !in m.data
    ensures ParseEvents(Parser("", "", events), m.Format() + tail) ==
            ParseEvents(Parser("", "", events + [m.Meaning()]), tail)
  {
    MessageDecodes(events, m.data, m.eventType, m.id, tail);
  }

  predicate Clean(messages: seq<Message>) {
    forall i | 0 <= i < |messages| :: messages[i].WellFormed() && '\r' !in messages[i].data
  }

  lemma {:induction false} MessagesDecode(events: seq<Event>, messages: seq<Message>)
    requires Clean(messages)
    ensures ParseEvents(Parser("", "", events), Concat(Formats(messages)))
            == Parser("", "", events + Meanings(messages))
    decreases |messages|
  {
    if messages == [] {
      assert Formats(messages) == [];
      assert events + Meanings(messages) == events;
    } else {
      FormatsCons(messages);
      MessageStep(events, messages[0], Concat(Formats(messages[1..])));
      MessagesDecode(events + [messages[0].Meaning()], messages[1..]);
      Associative(events, [messages[0].Meaning()], Meanings(messages[1..]));
    }
  }

  /** The frames of a list of messages, and the end of the stream. */
  function Frames(messages: seq<Message>): string {
    Chunks(Formats(messages)) + CHUNK_END
  }

  /**
   The framing round trip: a client that decodes the chunks and then the event stream gets exactly
   the messages that were framed, in order, and finds the end of the stream where it is.
   */
  lemma FramesDecode(messages: seq<Message>, rest: string)
    requires Clean(messages)
    ensures var body := Dechunk(Frames(messages) + rest);
            body.Complete? && body.rest == rest && Decode(body.content) == Meanings(messages)
  {
    ChunksDecode(Formats(messages), rest);
    MessagesDecode([], messages);
    assert [] + Meanings(messages) == Meanings(messages);
  }

  // ---------- The proviso on CR is exact ----------

  predicate CrFree(p: Parser) {
    '\r' !in p.data && forall e | e in p.events :: '\r' !in e.data
  }

  lemma {:induction false} DecodedDataIsCrFree(p: Parser, s: string)
    requires CrFree(p)
    ensures CrFree(ParseEvents(p, s))
    decreases |s|
  {
    var i := FirstBreak(s);
    if i < |s| {
      DecodedDataIsCrFree(OnLine(p, s[..i]), s[if CrlfAt(s, i) then i + 2 else i + 1..]);
    }
  }

  lemma NothingMore(p: Parser)
    ensures ParseEvents(p, "") == p
  {
  }

  /** A message survives the trip, up to one trailing LF, exactly when its data contains no CR. */
  lemma MessageSurvivesIffCrFree(m: Message)
    requires m.WellFormed()
    ensures Decode(m.Format()) == [m.Meaning()] <==> '\r' !in m.data
  {
    hide FormatSse, ParseEvents;
    if '\r' in m.data {
      DecodedDataIsCrFree(START, m.Format());
      assert '\r' in m.Meaning().data;
      assert |Decode(m.Format())| == 1 ==> '\r' !in Decode(m.Format())[0].data;
    } else {
      MessageDecodes([], m.data, m.eventType, m.id, "");
      NothingMore(Parser("", "", [] + [m.Meaning()]));
      assert m.Format() + "" == m.Format();
      assert [] + [m.Meaning()] == [m.Meaning()];
    }
  }

  /** And it survives unchanged exactly when, besides, it does not end with LF. */
  lemma DataSurvivesUnchanged(m: Message)
    requires m.WellFormed()
    ensures Decode(m.Format()) == [Event(KindName(m.eventType), m.data)]
            <==> '\r' !in m.data && (m.data == "" || m.data[|m.data| - 1] != '\n')
  {
    MessageSurvivesIffCrFree(m);
    DecodedDataIsCrFree(START, m.Format());
    assert |Decode(m.Format())| == 1 ==> '\r' !in Decode(m.Format())[0].data;
  }

  predicate AllWellFormed(messages: seq<Message>) {
    forall i | 0 <= i < |messages| :: messages[i].WellFormed()
  }

  /** A list of messages survives the framing exactly when none of their data contains a CR. */
  lemma FramesSurviveIffCrFree(messages: seq<Message>, rest: string)
    requires AllWellFormed(messages)
    ensures var body := Dechunk(Frames(messages) + rest);
            body.Complete? && body.rest == rest && (Decode(body.content) == Meanings(messages) <==> Clean(messages))
  {
    hide FormatSse, Dechunk;
    if Clean(messages) {
      FramesDecode(messages, rest);
    } else {
      ChunksDecode(Formats(messages), rest);
      DecodedDataIsCrFree(START, Concat(Formats(messages)));
      var i :| 0 <= i < |messages| && '\r' in messages[i].data;
      assert '\r' in Meanings(messages)[i].data;
      assert Meanings(messages)[i] in Meanings(messages);
    }
  }
}
