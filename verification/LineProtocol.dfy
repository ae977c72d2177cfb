/** The '|'-separated line protocol: one reply for every line terminated by LF. */
module LineProtocol {
  import opened Text
  import opened Lines
  import opened ProtocolHandlers

  /** A reply line; the current time is the one reply whose text the protocol does not determine. */
  datatype LineReply = Line(text: string) | CurrentTime

  datatype Message = Message(kind: string, payload: string)

  function Parse(line: string): Message {
    var sep := IndexOf(line, '|');
    if sep == |line| then Message("ERR", "bad_format") else Message(line[..sep], line[sep + 1..])
  }

  function Answer(m: Message): LineReply {
    if m.kind == "PING" then Line("PONG|" + m.payload)
    else if m.kind == "CHAT" then Line("CHAT_ACK|" + m.payload)
    else if m.kind == "TOOL" then (if m.payload == "time" then CurrentTime else Line("ERR|unknown_tool"))
    else Line("ERR|unknown_type")
  }

  function Reply(line: string): LineReply {
    Answer(Parse(DropCr(line)))
  }

  function Answers(lines: seq<string>): (r: seq<LineReply>)
    ensures |r| == |lines|
  {
    seq(|lines|, i requires 0 <= i < |lines| => Reply(lines[i]))
  }

  /** Replies to the complete lines of a buffer, and the incomplete line it ends with. */
  function Replies(buffer: string): (seq<LineReply>, string) {
    var (lines, rest) := SplitLines(buffer);
    (Answers(lines), rest)
  }

  /** Feeding a buffer in two parts gives the replies, and the unfinished line, of the whole. */
  lemma RepliesSplit(a: string, b: string)
    ensures Replies(a + b).0 == Replies(a).0 + Replies(Replies(a).1 + b).0
    ensures Replies(a + b).1 == Replies(Replies(a).1 + b).1
  {
    hide SplitLines, Reply;
    SplitInTwo(a, b);
    var first, rest := SplitLines(a).0, SplitLines(a).1;
    var second := SplitLines(rest + b).0;
    assert Answers(first + second) == Answers(first) + Answers(second);
  }

  /** Any list of LF-free lines gets exactly one reply each, in order, and nothing is left over. */
  lemma OneReplyPerLine(lines: seq<string>)
    requires forall l | l in lines :: '\n' !in l
    ensures var (replies, rest) := Replies(Terminated(lines));
            && rest == "" && |replies| == |lines|
            && forall i | 0 <= i < |lines| :: replies[i] == Reply(lines[i])
  {
    SplitRecovers(lines, "");
    assert Terminated(lines) + "" == Terminated(lines);
  }

  /** A message as a client writes it, with either line end. */
  function PrintMessage(m: Message, cr: bool): string {
    m.kind + "|" + m.payload + if cr then "\r" else ""
  }

  predicate Printable(m: Message) {
    && '|' !in m.kind && '\n' !in m.kind && '\n' !in m.payload
    && (m.payload != "" ==> m.payload[|m.payload| - 1] != '\r')
  }

  /** A message is read as it was written; the payload may contain further bars. */
  lemma MessageRoundTrip(m: Message, cr: bool)
    requires Printable(m)
    ensures Parse(DropCr(PrintMessage(m, cr))) == m
  {
    var line := m.kind + "|" + m.payload;
    if cr {
      assert PrintMessage(m, cr)[..|line|] == line;
    } else {
      assert PrintMessage(m, cr) == line;
    }
    SplitsAtBar(m.kind, m.payload);
  }

  /** The message that a reply is: an echo under the reply's type, or an error with its reason. */
  function ReplyMessage(m: Message): Message {
    if m.kind == "PING" then Message("PONG", m.payload)
    else if m.kind == "CHAT" then Message("CHAT_ACK", m.payload)
    else Message("ERR", if m.kind == "TOOL" then "unknown_tool" else "unknown_type")
  }

  lemma EchoText(m: Message)
    requires m.kind == "PING" || m.kind == "CHAT"
    ensures Answer(m) == Line(ReplyMessage(m).kind + "|" + ReplyMessage(m).payload)
  {
    assert "PONG" + "|" == "PONG|" && "CHAT_ACK" + "|" == "CHAT_ACK|";
  }

  lemma ErrorText(m: Message)
    requires m.kind != "PING" && m.kind != "CHAT" && Answer(m).Line?
    ensures Answer(m) == Line(ReplyMessage(m).kind + "|" + ReplyMessage(m).payload)
  {
    assert "ERR|unknown_tool" == "ERR" + "|" + "unknown_tool";
    assert "ERR|unknown_type" == "ERR" + "|" + "unknown_type";
  }

  /** Every reply is itself a message of the protocol; only the time is answered with something else. */
  lemma RepliesAreMessages(m: Message)
    ensures Answer(m).CurrentTime? <==> m == Message("TOOL", "time")
    ensures Answer(m).Line? ==> Parse(Answer(m).text) == ReplyMessage(m)
  {
    hide Parse;
    SplitsAtBar(ReplyMessage(m).kind, ReplyMessage(m).payload);
    if m.kind == "PING" || m.kind == "CHAT" {
      EchoText(m);
    } else if Answer(m).Line? {
      ErrorText(m);
    }
  }

  lemma SplitsAtBar(kind: string, payload: string)
    requires '|' !in kind
    ensures Parse(kind + "|" + payload) == Message(kind, payload)
  {
    var line := kind + "|" + payload;
    assert line == kind + ("|" + payload);
    IndexOfSplit(kind, "|" + payload, '|');
    assert line[..|kind|] == kind && line[|kind| + 1..] == payload;
  }

  /** A line without a bar is a message of no known type. */
  lemma UnseparatedLine(line: string)
    requires '|' !in line
    ensures Reply(line) == Line("ERR|unknown_type")
  {
    assert "ERR" != "PING" && "ERR" != "CHAT" && "ERR" != "TOOL";
  }

  function PrintMessages(ms: seq<Message>, cr: bool): (r: seq<string>)
    ensures |r| == |ms|
  {
    seq(|ms|, i requires 0 <= i < |ms| => PrintMessage(ms[i], cr))
  }

  /** Messages written one per line are answered one by one, each as what it is. */
  lemma MessagesAreAnswered(ms: seq<Message>, cr: bool)
    requires forall m | m in ms :: Printable(m)
    ensures var (replies, rest) := Replies(Terminated(PrintMessages(ms, cr)));
            rest == "" && |replies| == |ms| && forall i | 0 <= i < |ms| :: replies[i] == Answer(ms[i])
  {
    var lines := PrintMessages(ms, cr);
    forall i | 0 <= i < |ms|
      ensures '\n' !in lines[i] && Reply(lines[i]) == Answer(ms[i])
    {
      assert ms[i] in ms;
      MessageRoundTrip(ms[i], cr);
    }
    OneReplyPerLine(lines);
  }

  class CustomLineHandler {
    constructor () {}

    static method ExtractLine(buffer: ReadBuffer) returns (found: bool, line: string)
      modifies buffer
      ensures var i := IndexOf(old(buffer.bytes), '\n');
              && found == (i < |old(buffer.bytes)|)
              && (if found then line == DropCr(old(buffer.bytes)[..i]) && buffer.bytes == old(buffer.bytes)[i + 1..]
                  else buffer.bytes == old(buffer.bytes))
    {
      var pos := IndexOf(buffer.bytes, '\n');
      if pos == |buffer.bytes| {
        return false, "";
      }
      line := buffer.bytes[..pos];
      if line != "" && line[|line| - 1] == '\r' {
        line := line[..|line| - 1];
      }
      buffer.bytes := buffer.bytes[pos + 1..];
      found := true;
    }

    /**
     Answers every complete line; `alive` tells whether the connection is still there to be answered. If
     it is not, the first line is taken and the handler closes.
     */
    method Process(buffer: ReadBuffer, alive: bool) returns (replies: seq<LineReply>, result: ProcessResult)
      modifies buffer
      ensures if alive || IndexOf(old(buffer.bytes), '\n') == |old(buffer.bytes)| then
                && replies == Replies(old(buffer.bytes)).0 && buffer.bytes == Replies(old(buffer.bytes)).1
                && result == if buffer.bytes == "" then Continue else NeedMore
              else
                result == Close && replies == []
                && buffer.bytes == old(buffer.bytes)[IndexOf(old(buffer.bytes), '\n') + 1..]
    {
      hide SplitLines, Answer, Parse, DropCr, IndexOf;
      replies := [];
      ghost var lines: seq<string> := [];
      while true
        invariant SplitLines(old(buffer.bytes)).0 == lines + SplitLines(buffer.bytes).0
        invariant SplitLines(old(buffer.bytes)).1 == SplitLines(buffer.bytes).1
        invariant replies == Answers(lines)
        invariant alive || buffer.bytes == old(buffer.bytes)
        decreases |buffer.bytes|
      {
        label Turn:
        var found, line := ExtractLine(buffer);
        if !found {
          SplitNone(buffer.bytes);
          assert lines + [] == lines;
          break;
        }
        var response := Answer(Parse(line));
        if !alive {
          return [], Close;
        }
        ghost var before := old@Turn(buffer.bytes);
        ghost var raw := before[..IndexOf(before, '\n')];
        SplitFirst(before);
        Associative(lines, [raw], SplitLines(buffer.bytes).0);
        lines := lines + [raw];
        replies := replies + [response];
      }
      result := if buffer.bytes == "" then Continue else NeedMore;
    }
  }
}
