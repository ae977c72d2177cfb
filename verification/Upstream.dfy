/**
 Reading a model provider's event stream: bytes arrive in arbitrary chunks, are split into lines,
 and each line's JSON adds to the answer, the reasoning, or the fragments of tool calls. What a JSON
 text means is an arbitrary function from the text to a list of effects.
 */
module Upstream {
  import opened Text
  import opened Lines
  import opened Sessions
  import opened Agent

  /** One effect of a line; a parse error in the middle of a line just ends its list of effects. */
  datatype Effect =
    | AddContent(data: string)
    | AddReasoning(data: string)
    | Fragment(index: int, id: Option<string>, name: string, arguments: string)

  type Json = string -> seq<Effect>

  datatype Accumulator = Accumulator(id: string, name: string, arguments: string)

  const NOTHING := Accumulator("", "", "")

  /** The result under construction, what was emitted on the way, and the tool calls by index. */
  datatype Reading = Reading(
    content: string,
    reasoning: string,
    emitted: seq<Streamed>,
    calls: map<int, Accumulator>)

  const BLANK := Reading("", "", [], map[])

  function Extend(acc: Accumulator, id: Option<string>, name: string, arguments: string): Accumulator {
    Accumulator(if id.Some? then id.value else acc.id, acc.name + name, acc.arguments + arguments)
  }

  function ApplyEffect(r: Reading, e: Effect): Reading {
    match e
    case AddContent(data) =>
      if data == "" then r else r.(content := r.content + data, emitted := r.emitted + [Streamed.Text(data)])
    case AddReasoning(data) =>
      if data == "" then r else r.(reasoning := r.reasoning + data, emitted := r.emitted + [Thought(data)])
    case Fragment(index, id, name, arguments) =>
      var acc := if index in r.calls then r.calls[index] else NOTHING;
      r.(calls := r.calls[index := Extend(acc, id, name, arguments)])
  }

  function ApplyAll(r: Reading, effects: seq<Effect>): Reading {
    if effects == [] then r else ApplyEffect(ApplyAll(r, effects[..|effects| - 1]), effects[|effects| - 1])
  }

  /** Drops line ends and blanks at the end of a payload. */
  function TrimEnd(s: string): string
    decreases |s|
  {
    if s != "" && (s[|s| - 1] == '\n' || s[|s| - 1] == '\r' || s[|s| - 1] == ' ') then TrimEnd(s[..|s| - 1]) else s
  }

  /** The JSON text of a line, if it is a data line that carries any. */
  function Payload(line: string): Option<string> {
    if !StartsWith(line, "data:") then None
    else
      var text := TrimEnd(if |line| > 5 && line[5] == ' ' then line[6..] else line[5..]);
      if text == "[DONE]" || text == "" || text[0] != '{' then None else Some(text)
  }

  function LineEffects(json: Json, line: string): seq<Effect> {
    match Payload(line)
    case None => []
    case Some(text) => json(text)
  }

  function ProcessLine(json: Json, r: Reading, line: string): Reading {
    ApplyAll(r, LineEffects(json, line))
  }

  function ProcessLines(json: Json, r: Reading, lines: seq<string>): Reading {
    if lines == [] then r
    else ProcessLine(json, ProcessLines(json, r, lines[..|lines| - 1]), DropCr(lines[|lines| - 1]))
  }

  // ---------- Chunks ----------

  /** The reader between two chunks: the unfinished line and the reading so far. */
  datatype Reader = Reader(pending: string, reading: Reading)

  function OnData(json: Json, r: Reader, chunk: string): Reader {
    Reader(SplitLines(r.pending + chunk).1, ProcessLines(json, r.reading, SplitLines(r.pending + chunk).0))
  }

  function OnChunks(json: Json, r: Reader, chunks: seq<string>): Reader
    decreases |chunks|
  {
    if chunks == [] then r else OnChunks(json, OnData(json, r, chunks[0]), chunks[1..])
  }

  /** The last line need not be terminated. */
  function Flush(json: Json, r: Reader): Reading {
    if r.pending == "" then r.reading else ProcessLine(json, r.reading, DropCr(r.pending))
  }

  function ReadChunks(json: Json, chunks: seq<string>): Reading {
    Flush(json, OnChunks(json, Reader("", BLANK), chunks))
  }

  /** The lines of a whole stream, the last one terminated or not. */
  function StreamLines(stream: string): seq<string> {
    var (lines, rest) := SplitLines(stream);
    if rest == "" then lines else lines + [rest]
  }

  lemma {:induction false} ProcessLinesAppend(json: Json, r: Reading, a: seq<string>, b: seq<string>)
    ensures ProcessLines(json, r, a + b) == ProcessLines(json, ProcessLines(json, r, a), b)
    decreases |b|
  {
    if b == [] {
      assert a + b == a;
    } else {
      assert (a + b)[..|a + b| - 1] == a + b[..|b| - 1];
      ProcessLinesAppend(json, r, a, b[..|b| - 1]);
    }
  }

  lemma OnDataTwice(json: Json, r: Reader, a: string, b: string)
    ensures OnData(json, OnData(json, r, a), b) == OnData(json, r, a + b)
  {
    var first, rest := SplitLines(r.pending + a).0, SplitLines(r.pending + a).1;
    var second := SplitLines(rest + b).0;
    PendingAndTwo(r.pending, a, b);
    ProcessLinesAppend(json, r.reading, first, second);
  }

  lemma PendingAndTwo(pending: string, a: string, b: string)
    ensures SplitLines(pending + (a + b)).0 == SplitLines(pending + a).0 + SplitLines(SplitLines(pending + a).1 + b).0
    ensures SplitLines(pending + (a + b)).1 == SplitLines(SplitLines(pending + a).1 + b).1
  {
    hide SplitLines;
    SplitInTwo(pending + a, b);
    assert pending + (a + b) == pending + a + b;
  }

  lemma {:induction false} ChunksAreOneChunk(json: Json, r: Reader, chunks: seq<string>)
    requires '\n' !in r.pending
    ensures OnChunks(json, r, chunks) == OnData(json, r, Concat(chunks))
    decreases |chunks|
  {
    if chunks == [] {
      assert r.pending + "" == r.pending;
      assert IndexOf(r.pending, '\n') == |r.pending|;
    } else {
      SplitLinesAreLfFree(r.pending + chunks[0]);
      ChunksAreOneChunk(json, OnData(json, r, chunks[0]), chunks[1..]);
      OnDataTwice(json, r, chunks[0], Concat(chunks[1..]));
    }
  }

  /**
   Chunking does not matter: however the upstream bytes were cut, the lines processed are the lines
   of the whole stream, each once and in order, so any two cuts give the same result and emissions.
   */
  lemma ChunkingDoesNotMatter(json: Json, chunks: seq<string>)
    ensures ReadChunks(json, chunks) == ProcessLines(json, BLANK, StreamLines(Concat(chunks)))
  {
    var stream := Concat(chunks);
    ChunksAreOneChunk(json, Reader("", BLANK), chunks);
    assert "" + stream == stream;
    var (lines, rest) := SplitLines(stream);
    assert (lines + [rest])[..|lines|] == lines;
  }

  // ---------- What the reading contains ----------

  function Texts(emitted: seq<Streamed>): string {
    if emitted == [] then ""
    else Texts(emitted[..|emitted| - 1]) + if emitted[|emitted| - 1].Text? then emitted[|emitted| - 1].data else ""
  }

  function Thoughts(emitted: seq<Streamed>): string {
    if emitted == [] then ""
    else
      Thoughts(emitted[..|emitted| - 1]) + if emitted[|emitted| - 1].Thought? then emitted[|emitted| - 1].data else ""
  }

  /** All effects of the lines, in order. */
  function AllEffects(json: Json, lines: seq<string>): seq<Effect> {
    if lines == [] then []
    else AllEffects(json, lines[..|lines| - 1]) + LineEffects(json, DropCr(lines[|lines| - 1]))
  }

  lemma {:induction false} ApplyAllAppend(r: Reading, a: seq<Effect>, b: seq<Effect>)
    ensures ApplyAll(r, a + b) == ApplyAll(ApplyAll(r, a), b)
    decreases |b|
  {
    if b == [] {
      assert a + b == a;
    } else {
      assert (a + b)[..|a + b| - 1] == a + b[..|b| - 1];
      ApplyAllAppend(r, a, b[..|b| - 1]);
    }
  }

  lemma {:induction false} LinesAreEffects(json: Json, r: Reading, lines: seq<string>)
    ensures ProcessLines(json, r, lines) == ApplyAll(r, AllEffects(json, lines))
    decreases |lines|
  {
    if lines != [] {
      var last := |lines| - 1;
      LinesAreEffects(json, r, lines[..last]);
      ApplyAllAppend(r, AllEffects(json, lines[..last]), LineEffects(json, DropCr(lines[last])));
    }
  }

  /** The fragments of one index, in order of arrival. */
  function FragmentsOf(effects: seq<Effect>, index: int): seq<Effect> {
    if effects == [] then []
    else
      var last := effects[|effects| - 1];
      FragmentsOf(effects[..|effects| - 1], index) + if last.Fragment? && last.index == index then [last] else []
  }

  function Names(fragments: seq<Effect>): string
    requires forall f | f in fragments :: f.Fragment?
  {
    if fragments == [] then "" else Names(fragments[..|fragments| - 1]) + fragments[|fragments| - 1].name
  }

  function Arguments(fragments: seq<Effect>): string
    requires forall f | f in fragments :: f.Fragment?
  {
    if fragments == [] then "" else Arguments(fragments[..|fragments| - 1]) + fragments[|fragments| - 1].arguments
  }

  /** The last id that was given, if any. */
  function LastId(fragments: seq<Effect>): string
    requires forall f | f in fragments :: f.Fragment?
  {
    if fragments == [] then ""
    else
      var last := fragments[|fragments| - 1];
      if last.id.Some? then last.id.value else LastId(fragments[..|fragments| - 1])
  }

  lemma {:induction false} FragmentsAreFragments(effects: seq<Effect>, index: int)
    ensures forall f | f in FragmentsOf(effects, index) :: f.Fragment?
    ensures FragmentsOf(effects, index) != [] ==> exists e :: e in effects && e.Fragment? && e.index == index
  {
    if effects != [] {
      FragmentsAreFragments(effects[..|effects| - 1], index);
      assert forall e | e in effects[..|effects| - 1] :: e in effects;
    }
  }

  predicate Mirrors(r: Reading) {
    r.content == Texts(r.emitted) && r.reasoning == Thoughts(r.emitted)
  }

  lemma EffectMirrors(r: Reading, e: Effect)
    requires Mirrors(r)
    ensures Mirrors(ApplyEffect(r, e))
  {
    var next := ApplyEffect(r, e);
    if next.emitted != r.emitted {
      assert next.emitted[..|next.emitted| - 1] == r.emitted;
      assert r.content + "" == r.content && r.reasoning + "" == r.reasoning;
    }
  }

  lemma {:induction false} EffectsMirror(effects: seq<Effect>)
    ensures Mirrors(ApplyAll(BLANK, effects))
    decreases |effects|
  {
    if effects != [] {
      EffectsMirror(effects[..|effects| - 1]);
      EffectMirrors(ApplyAll(BLANK, effects[..|effects| - 1]), effects[|effects| - 1]);
    }
  }

  /** What the client is told of an effect: texts and thoughts that are not empty. */
  function Emission(e: Effect): seq<Streamed> {
    match e
    case AddContent(data) => if data == "" then [] else [Streamed.Text(data)]
    case AddReasoning(data) => if data == "" then [] else [Thought(data)]
    case Fragment(_, _, _, _) => []
  }

  function Emissions(effects: seq<Effect>): seq<Streamed> {
    if effects == [] then [] else Emissions(effects[..|effects| - 1]) + Emission(effects[|effects| - 1])
  }

  /** Every text and thought is emitted, as it came and when it came, and nothing else is. */
  lemma {:induction false} EffectsEmit(effects: seq<Effect>)
    ensures ApplyAll(BLANK, effects).emitted == Emissions(effects)
    decreases |effects|
  {
    if effects != [] {
      EffectsEmit(effects[..|effects| - 1]);
    }
  }

  /** What the fragments of one tool call add up to. */
  function Assembled(fragments: seq<Effect>): Accumulator
    requires forall f | f in fragments :: f.Fragment?
  {
    Accumulator(LastId(fragments), Names(fragments), Arguments(fragments))
  }

  function FragmentsFor(effects: seq<Effect>, index: int): (r: seq<Effect>)
    ensures forall f | f in r :: f.Fragment?
  {
    FragmentsAreFragments(effects, index);
    FragmentsOf(effects, index)
  }

  /** Each index holds its own fragments, concatenated in order of arrival, and nothing else. */
  lemma {:induction false} EffectsAccumulate(effects: seq<Effect>, index: int)
    ensures var fragments := FragmentsFor(effects, index);
            var calls := ApplyAll(BLANK, effects).calls;
            && (index in calls <==> fragments != [])
            && (index in calls ==> calls[index] == Assembled(fragments))
    decreases |effects|
  {
    if effects != [] {
      var before, last := effects[..|effects| - 1], effects[|effects| - 1];
      EffectsAccumulate(before, index);
      var fragments := FragmentsFor(effects, index);
      if last.Fragment? && last.index == index {
        assert fragments[..|fragments| - 1] == FragmentsFor(before, index);
        assert FragmentsFor(before, index) == [] ==> Assembled(FragmentsFor(before, index)) == NOTHING;
      } else {
        assert fragments == FragmentsFor(before, index);
      }
    }
  }

  // ---------- A provider's stream ----------

  /** A JSON object on one line, without blanks behind it. */
  predicate IsObject(text: string) {
    && text != "" && text[0] == '{' && '\n' !in text
    && text[|text| - 1] != '\r' && text[|text| - 1] != ' '
  }

  function DataLine(text: string, cr: bool): string {
    "data: " + text + if cr then "\r" else ""
  }

  function EmptyLine(cr: bool): string {
    if cr then "\r" else ""
  }

  /** What a provider writes: a data line and an empty line for each object. */
  function Printed(texts: seq<string>, cr: bool): seq<string> {
    if texts == [] then []
    else Printed(texts[..|texts| - 1], cr) + [DataLine(texts[|texts| - 1], cr)] + [EmptyLine(cr)]
  }

  function Meant(json: Json, texts: seq<string>): seq<Effect> {
    if texts == [] then [] else Meant(json, texts[..|texts| - 1]) + json(texts[|texts| - 1])
  }

  predicate IsBlank(s: string) {
    forall i | 0 <= i < |s| :: s[i] == '\n' || s[i] == '\r' || s[i] == ' '
  }

  lemma {:induction false} TrimDropsBlanks(text: string, blank: string)
    requires IsObject(text) && IsBlank(blank)
    ensures TrimEnd(text + blank) == text
    decreases |blank|
  {
    if blank == "" {
      assert text + blank == text;
    } else {
      TrimDropsBlanks(text, blank[..|blank| - 1]);
      assert (text + blank)[..|text + blank| - 1] == text + blank[..|blank| - 1];
      assert (text + blank)[|text + blank| - 1] == blank[|blank| - 1];
    }
  }

  /** The payload of a data line is its text, with or without a blank behind the colon and blanks at the end. */
  lemma PayloadIsText(text: string, blank: string)
    requires IsObject(text) && IsBlank(blank)
    ensures Payload("data: " + text + blank) == Some(text) && Payload("data:" + text + blank) == Some(text)
  {
    hide TrimEnd;
    TrimDropsBlanks(text, blank);
    var spaced, plain := "data: " + text + blank, "data:" + text + blank;
    assert spaced[..5] == "data:" && spaced[6..] == text + blank;
    assert plain[..5] == "data:" && plain[5..] == text + blank;
  }

  /** Any other line means nothing: comments, empty lines and texts that are no object are skipped. */
  lemma OtherLinesMeanNothing(line: string)
    ensures Payload(line).Some? ==> "data:" <= line && Payload(line).value != "" && Payload(line).value[0] == '{'
    ensures Payload("data: [DONE]") == None && Payload("data:[DONE]") == None && Payload("") == None
  {
    assert "data: [DONE]"[6..] == "[DONE]" && "data:[DONE]"[5..] == "[DONE]";
    assert "data: [DONE]"[..5] == "data:";
  }

  lemma DataLineMeans(json: Json, text: string, cr: bool)
    requires IsObject(text)
    ensures LineEffects(json, DropCr(DataLine(text, cr))) == json(text)
    ensures '\n' !in DataLine(text, cr)
  {
    PayloadIsText(text, "");
    assert "data: " + text + "" == "data: " + text;
    var line := DataLine(text, cr);
    if cr {
      assert line[..|line| - 1] == "data: " + text;
    } else {
      assert line == "data: " + text;
    }
    assert forall i | 0 <= i < 6 :: "data: "[i] != '\n';
  }

  lemma DoneLineMeans(json: Json, cr: bool)
    ensures LineEffects(json, DropCr(DataLine("[DONE]", cr))) == []
    ensures '\n' !in DataLine("[DONE]", cr)
  {
    var line := DataLine("[DONE]", false);
    assert DropCr(DataLine("[DONE]", cr)) == line;
    assert line[6..] == "[DONE]";
    assert forall i | 0 <= i < |line| :: line[i] != '\n';
  }

  lemma {:induction false} PrintedMeans(json: Json, texts: seq<string>, cr: bool)
    requires forall t | t in texts :: IsObject(t)
    ensures AllEffects(json, Printed(texts, cr)) == Meant(json, texts)
    ensures forall l | l in Printed(texts, cr) :: '\n' !in l
    decreases |texts|
  {
    if texts != [] {
      var before, last := texts[..|texts| - 1], texts[|texts| - 1];
      var lines := Printed(before, cr);
      PrintedMeans(json, before, cr);
      DataLineMeans(json, last, cr);
    }
  }

  lemma TerminatedStreamIsRead(json: Json, lines: seq<string>, chunks: seq<string>)
    requires Concat(chunks) == Terminated(lines) && forall l | l in lines :: '\n' !in l
    ensures ReadChunks(json, chunks) == ApplyAll(BLANK, AllEffects(json, lines))
  {
    SplitRecovers(lines, "");
    assert Terminated(lines) + "" == Terminated(lines);
    ChunkingDoesNotMatter(json, chunks);
    LinesAreEffects(json, BLANK, lines);
  }

  function WholeStream(texts: seq<string>, cr: bool): seq<string> {
    Printed(texts, cr) + [DataLine("[DONE]", cr)]
  }

  lemma WholeStreamMeans(json: Json, texts: seq<string>, cr: bool)
    requires forall t | t in texts :: IsObject(t)
    ensures AllEffects(json, WholeStream(texts, cr)) == Meant(json, texts)
    ensures forall l | l in WholeStream(texts, cr) :: '\n' !in l
  {
    PrintedMeans(json, texts, cr);
    DoneLineMeans(json, cr);
  }

  /**
   A provider's stream of JSON objects, ended by [DONE], is read as exactly what the objects mean, in
   order, however it is cut into chunks and whichever line ends it uses.
   */
  lemma PrintedStreamIsRead(json: Json, texts: seq<string>, cr: bool, chunks: seq<string>)
    requires forall t | t in texts :: IsObject(t)
    requires Concat(chunks) == Terminated(WholeStream(texts, cr))
    ensures ReadChunks(json, chunks) == ApplyAll(BLANK, Meant(json, texts))
  {
    WholeStreamMeans(json, texts, cr);
    TerminatedStreamIsRead(json, WholeStream(texts, cr), chunks);
  }

  // ---------- The finished call ----------

  /** A tool call for an accumulator; arguments that do not parse become an empty object. */
  function ToCall(acc: Accumulator, parse: string -> Option<string>): ToolCall {
    var arguments := if acc.arguments == "" then "{}" else
      match parse(acc.arguments)
      case None => "{}"
      case Some(text) => text;
    ToolCall(acc.id, acc.name, arguments)
  }

  /** A call with this id and name, and with its arguments as far as they parse. */
  predicate IsCallOf(call: ToolCall, id: string, name: string, arguments: string, parse: string -> Option<string>) {
    && call.id == id && call.name == name
    && call.arguments == if arguments == "" || parse(arguments).None? then "{}" else parse(arguments).value
  }

  /** `order` lists the indices with a non-empty name, each once: the order of a hash map's entries. */
  predicate NamedOnce(calls: map<int, Accumulator>, order: seq<int>) {
    && (forall i, j | 0 <= i < j < |order| :: order[i] != order[j])
    && (forall index | index in order :: index in calls && calls[index].name != "")
    && (forall index | index in calls :: calls[index].name != "" ==> index in order)
  }

  lemma HasElement(indices: set<int>)
    requires indices != {}
    ensures exists k :: k in indices
  {
    assert (forall k :: k !in indices) ==> indices == {};
  }

  /** Merges the accumulators into tool calls, in whatever order the hash map gives them out. */
  method MergeCalls(calls: map<int, Accumulator>, parse: string -> Option<string>)
    returns (merged: seq<ToolCall>, ghost order: seq<int>)
    ensures NamedOnce(calls, order) && |merged| == |order|
    ensures forall i | 0 <= i < |order| ::
              order[i] in calls && IsCallOf(merged[i], calls[order[i]].id, calls[order[i]].name,
                                            calls[order[i]].arguments, parse)
  {
    merged, order := [], [];
    var left := calls.Keys;
    while left != {}
      invariant left <= calls.Keys && |merged| == |order|
      invariant forall i, j | 0 <= i < j < |order| :: order[i] != order[j]
      invariant forall index | index in order :: index in calls && index !in left && calls[index].name != ""
      invariant forall index | index in calls && index !in left :: calls[index].name != "" ==> index in order
      invariant forall i | 0 <= i < |order| :: order[i] in calls && merged[i] == ToCall(calls[order[i]], parse)
      decreases left
    {
      HasElement(left);
      var index :| index in left;
      left := left - {index};
      if calls[index].name != "" {
        merged := merged + [ToCall(calls[index], parse)];
        order := order + [index];
      }
    }
  }

  lemma SplitStep(s: string, start: nat, pos: nat, done: seq<string>)
    requires start <= pos < |s| && pos == start + IndexOf(s[start..], '\n')
    ensures done + SplitLines(s[start..]).0 == done + [s[start..pos]] + SplitLines(s[pos + 1..]).0
    ensures SplitLines(s[start..]).1 == SplitLines(s[pos + 1..]).1
  {
    hide SplitLines, IndexOf;
    assert s[start..][..pos - start] == s[start..pos];
    assert s[start..][pos - start + 1..] == s[pos + 1..];
    SplitFirst(s[start..]);
    Associative(done, [s[start..pos]], SplitLines(s[pos + 1..]).0);
  }

  lemma ProcessLinesStep(json: Json, r: Reading, done: seq<string>, line: string)
    ensures ProcessLines(json, r, done + [line]) == ProcessLine(json, ProcessLines(json, r, done), DropCr(line))
  {
    assert (done + [line])[..|done|] == done;
  }

  /** The state the transfer's callbacks share. */
  class StreamReader {
    var pendingLine: string
    var content: string
    var reasoning: string
    var emitted: seq<Streamed>
    var calls: map<int, Accumulator>

    function State(): Reading
      reads this
    {
      Reading(content, reasoning, emitted, calls)
    }

    constructor ()
      ensures pendingLine == "" && State() == BLANK
    {
      pendingLine, content, reasoning, emitted, calls := "", "", "", [], map[];
    }

    method ProcessSseLine(json: Json, line: string)
      modifies this
      ensures State() == ProcessLine(json, old(State()), line) && pendingLine == old(pendingLine)
    {
      var payload := Payload(line);
      if payload.None? {
        return;
      }
      var effects := json(payload.value);
      for i := 0 to |effects|
        invariant State() == ApplyAll(old(State()), effects[..i]) && pendingLine == old(pendingLine)
      {
        assert effects[..i + 1][..i] == effects[..i];
        match effects[i]
        case AddContent(data) =>
          if data != "" {
            content := content + data;
            emitted := emitted + [Streamed.Text(data)];
          }
        case AddReasoning(data) =>
          if data != "" {
            reasoning := reasoning + data;
            emitted := emitted + [Thought(data)];
          }
        case Fragment(index, id, name, arguments) =>
          var acc := if index in calls then calls[index] else NOTHING;
          calls := calls[index := Extend(acc, id, name, arguments)];
      }
      assert effects[..|effects|] == effects;
    }

    /** Appends a chunk and processes every line it completes. */
    method OnChunk(json: Json, chunk: string)
      modifies this
      ensures Reader(pendingLine, State()) == OnData(json, Reader(old(pendingLine), old(State())), chunk)
    {
      hide ProcessLine, SplitLines, DropCr, IndexOf;
      pendingLine := pendingLine + chunk;
      var start := 0;
      ghost var before, lines := State(), SplitLines(pendingLine).0;
      ghost var done: seq<string> := [];
      assert pendingLine[0..] == pendingLine;
      while IndexOf(pendingLine[start..], '\n') < |pendingLine| - start
        invariant 0 <= start <= |pendingLine| && pendingLine == old(pendingLine) + chunk
        invariant lines == done + SplitLines(pendingLine[start..]).0
        invariant SplitLines(pendingLine).1 == SplitLines(pendingLine[start..]).1
        invariant State() == ProcessLines(json, before, done)
        decreases |pendingLine| - start
      {
        var pos := start + IndexOf(pendingLine[start..], '\n');
        var line := pendingLine[start..pos];
        SplitStep(pendingLine, start, pos, done);
        start := pos + 1;
        ProcessSseLine(json, DropCr(line));
        ProcessLinesStep(json, before, done, line);
        done := done + [line];
      }
      SplitNone(pendingLine[start..]);
      assert done + [] == done;
      pendingLine := pendingLine[start..];
    }

    method Finish(json: Json)
      modifies this
      ensures State() == Flush(json, Reader(old(pendingLine), old(State()))) && pendingLine == ""
    {
      if pendingLine != "" {
        ProcessSseLine(json, DropCr(pendingLine));
        pendingLine := "";
      }
    }
  }

  /**
   What decides a call besides the bytes of the answer: the chunks they came in, whether the key is set,
   whether the transfer succeeded, and what the looks at the cancel flag before and after it saw.
   */
  datatype Transfer = Transfer(hasKey: bool, chunks: seq<string>, ok: bool, canceledBefore: bool, canceled: bool)

  function Refused(error: string, canceled: bool): LlmResult {
    LlmResult([], "", "", false, error, canceled)
  }

  /**
   A whole transfer: whatever its chunks, the answer and the reasoning are what was emitted as such,
   and there is one tool call for each index whose name is not empty, assembled from its fragments. It
   succeeds if it went through and was not cancelled; what had arrived of one that did not is kept.
   */
  method CallDeepseek(json: Json, parse: string -> Option<string>, t: Transfer)
    returns (result: LlmResult, emitted: seq<Streamed>, ghost order: seq<int>)
    ensures !t.hasKey ==> result == Refused("DEEPSEEK_API_KEY not set", false) && emitted == []
    ensures t.hasKey ==>
              && result.success == (t.ok && !t.canceled) && result.canceled == t.canceled
              && result.error == (if t.ok then "" else "DeepSeek request failed")
    ensures t.hasKey ==>
              && result.content == Texts(emitted) && result.reasoning == Thoughts(emitted)
              && emitted == Emissions(AllEffects(json, StreamLines(Concat(t.chunks))))
    ensures t.hasKey ==>
              var effects, calls := AllEffects(json, StreamLines(Concat(t.chunks))), result.calls;
              && |calls| == |order|
              && (forall i, j | 0 <= i < j < |order| :: order[i] != order[j])
              && (forall index :: index in order <==> Names(FragmentsFor(effects, index)) != "")
              && (forall i | 0 <= i < |order| ::
                    var fragments := FragmentsFor(effects, order[i]);
                    IsCallOf(calls[i], LastId(fragments), Names(fragments), Arguments(fragments), parse))
  {
    order := [];
    if !t.hasKey {
      return Refused("DEEPSEEK_API_KEY not set", false), [], [];
    }
    var reader := ReadAnswer(json, t.chunks);
    ghost var effects := AllEffects(json, StreamLines(Concat(t.chunks)));
    EffectsMirror(effects);
    EffectsEmit(effects);
    emitted := reader.emitted;
    ghost var acc := reader.calls;
    var calls;
    calls, order := MergeCalls(reader.calls, parse);
    forall index
      ensures index in acc <==> FragmentsFor(effects, index) != []
      ensures index in acc ==> acc[index] == Assembled(FragmentsFor(effects, index))
    {
      EffectsAccumulate(effects, index);
    }
    var success, error, canceled := t.ok, "", t.canceled;
    if canceled {
      success := false;
    }
    if !t.ok {
      success, error := false, "DeepSeek request failed";
    }
    result := LlmResult(calls, reader.content, reader.reasoning, success, error, canceled);
  }

  /** Reads all chunks, and what is left when the last of them came. */
  method ReadAnswer(json: Json, chunks: seq<string>) returns (reader: StreamReader)
    ensures fresh(reader)
    ensures reader.State() == ApplyAll(BLANK, AllEffects(json, StreamLines(Concat(chunks))))
  {
    reader := new StreamReader();
    for i := 0 to |chunks|
      invariant OnChunks(json, Reader(reader.pendingLine, reader.State()), chunks[i..]) ==
                OnChunks(json, Reader("", BLANK), chunks)
    {
      assert chunks[i..][1..] == chunks[i + 1..];
      reader.OnChunk(json, chunks[i]);
    }
    reader.Finish(json);
    ChunkingDoesNotMatter(json, chunks);
    LinesAreEffects(json, BLANK, StreamLines(Concat(chunks)));
  }

  /** One model call: none is made when it is cancelled already. */
  method Call(json: Json, parse: string -> Option<string>, t: Transfer)
    returns (result: LlmResult, emitted: seq<Streamed>)
    ensures t.canceledBefore ==> result == Refused("", true) && emitted == []
    ensures !t.canceledBefore && t.hasKey ==> emitted == Emissions(AllEffects(json, StreamLines(Concat(t.chunks))))
    ensures result.content == Texts(emitted) && result.reasoning == Thoughts(emitted)
    ensures result.canceled == (t.canceledBefore || (t.hasKey && t.canceled))
    ensures result.success == (!result.canceled && t.hasKey && t.ok)
    ensures !result.success && !result.canceled ==> result.error != ""
  {
    if t.canceledBefore {
      return Refused("", true), [];
    }
    ghost var order;
    result, emitted, order := CallDeepseek(json, parse, t);
  }
}
