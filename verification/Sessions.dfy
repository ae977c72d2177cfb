/** Conversation histories: how they are trimmed, and the grammar that trimming must not break. */
module Sessions {
  datatype Role = System | User | Assistant | Tool | Other(name: string)

  datatype ToolCall = ToolCall(id: string, name: string, arguments: string)

  datatype Message = Message(
    role: Role,
    content: string,
    toolCalls: seq<ToolCall>,
    toolCallId: string,
    reasoning: string)

  type History = seq<Message>

  function UserMessage(content: string): Message {
    Message(User, content, [], "", "")
  }

  function AssistantMessage(content: string): Message {
    Message(Assistant, content, [], "", "")
  }

  function CallMessage(calls: seq<ToolCall>, reasoning: string): Message {
    Message(Assistant, "", calls, "", reasoning)
  }

  function ToolMessage(id: string, content: string): Message {
    Message(Tool, content, [], id, "")
  }

  // ---------- Trimming ----------

  /** Length of the leading run of system messages. */
  function SystemCount(h: History): (n: nat)
    ensures n <= |h|
    ensures forall i | 0 <= i < n :: h[i].role.System?
    ensures n < |h| ==> !h[n].role.System?
  {
    if h != [] && h[0].role.System? then 1 + SystemCount(h[1..]) else 0
  }

  /** Position of the first user message from `from` on, or `|h|`. */
  function FirstUser(h: History, from: nat): (k: nat)
    requires from <= |h|
    ensures from <= k <= |h|
    ensures forall i | from <= i < k :: !h[i].role.User?
    ensures k < |h| ==> h[k].role.User?
    decreases |h| - from
  {
    if from < |h| && !h[from].role.User? then FirstUser(h, from + 1) else from
  }

  function Max(a: nat, b: nat): nat {
    if a < b then b else a
  }

  /** Where the kept part of an overlong history may start at the earliest. */
  function KeepFrom(h: History, max: int): nat
    requires 0 < max < |h|
  {
    Max(SystemCount(h), |h| - max)
  }

  /** The history after trimming: the system messages, then everything from a user message on. */
  function Trim(h: History, max: int): History {
    if max <= 0 || |h| <= max then h
    else
      var k := FirstUser(h, KeepFrom(h, max));
      if k == |h| then h else h[..SystemCount(h)] + h[k..]
  }

  /** The limit as the append compares it: a size_t, so a negative limit is out of reach. */
  predicate OverLimit(size: nat, max: int) {
    size > (if max >= 0 then max else 0x1_0000_0000_0000_0000 + max)
  }

  function Append(h: History, m: Message, max: int): History {
    if OverLimit(|h| + 1, max) then Trim(h + [m], max) else h + [m]
  }

  /** The comparison with the limit never goes wrong: an append is a push followed by a trim. */
  lemma AppendTrims(h: History, m: Message, max: int)
    ensures Append(h, m, max) == Trim(h + [m], max)
  {
  }

  lemma SystemCountOfParts(h: History, k: nat)
    requires SystemCount(h) <= k < |h| && h[k].role.User?
    ensures SystemCount(h[..SystemCount(h)] + h[k..]) == SystemCount(h)
  {
    var sys := SystemCount(h);
    var t := h[..sys] + h[k..];
    assert t[sys] == h[k];
    assert forall i | 0 <= i < sys :: t[i] == h[i];
    assert !(SystemCount(t) < sys);
  }

  /** Trimming keeps the leading system messages and a suffix that starts with a user message, or everything. */
  lemma TrimKeepsASuffix(h: History, max: int)
    ensures var t := Trim(h, max);
            t == h || exists k :: SystemCount(h) <= k < |h| && h[k].role.User? && t == h[..SystemCount(h)] + h[k..]
  {
    if 0 < max < |h| {
      var k := FirstUser(h, KeepFrom(h, max));
      assert k < |h| ==> Trim(h, max) == h[..SystemCount(h)] + h[k..];
    }
  }

  /** The newest message always survives. */
  lemma NewestSurvives(h: History, m: Message, max: int)
    ensures var a := Append(h, m, max); a != [] && a[|a| - 1] == m
  {
    TrimKeepsASuffix(h + [m], max);
  }

  /**
   The cut is the least one: every earlier user message behind the system messages would leave more
   than `max` messages, and nothing is cut when no user message leaves few enough.
   */
  lemma TrimCutsLeast(h: History, max: int, k: nat)
    requires 0 < max < |h| && SystemCount(h) <= k < |h| && h[k].role.User? && |h| - k <= max
    ensures var t := Trim(h, max);
            SystemCount(h) + |h| - k <= |t| && t[|t| - (|h| - k)..] == h[k..]
  {
    hide FirstUser, SystemCount;
    var cut := FirstUser(h, KeepFrom(h, max));
    assert cut <= k;
    assert Trim(h, max) == h[..SystemCount(h)] + h[cut..];
    SuffixOfSuffix(h[..SystemCount(h)], h, cut, k);
  }

  lemma SuffixOfSuffix(kept: History, h: History, cut: nat, k: nat)
    requires cut <= k <= |h|
    ensures var t := kept + h[cut..]; t[|t| - (|h| - k)..] == h[k..]
  {
    var t := kept + h[cut..];
    assert t[|t| - (|h| - k)..] == h[cut..][k - cut..];
  }

  /** The length is bounded unless the last `max` messages contain no user message to start from. */
  lemma TrimIsBounded(h: History, max: int)
    requires 0 < max
    ensures var t := Trim(h, max);
            |t| <= max + SystemCount(h)
            || (t == h && |h| > max && forall i | KeepFrom(h, max) <= i < |h| :: !h[i].role.User?)
  {
  }

  /** Where an overlong history is cut: at a user message that only messages of other roles precede. */
  predicate IsCut(h: History, max: int, k: nat)
    requires 0 < max < |h|
  {
    KeepFrom(h, max) <= k < |h| && h[k].role.User? && forall i | KeepFrom(h, max) <= i < k :: !h[i].role.User?
  }

  /**
   A trimmed history has at most `max` messages exactly when it had no more before, or the first user
   message from which it may be kept leaves room for the leading system messages too.
   */
  lemma TrimKeepsTheLimitIff(h: History, max: int)
    requires 0 < max
    ensures |Trim(h, max)| <= max <==>
            |h| <= max || exists k :: |h| - max + SystemCount(h) <= k < |h| && IsCut(h, max, k)
  {
    if max < |h| {
      var k := FirstUser(h, KeepFrom(h, max));
      assert forall j | KeepFrom(h, max) <= j < |h| && IsCut(h, max, j) :: j == k;
      assert k < |h| ==> IsCut(h, max, k);
    }
  }

  /** The limit is not kept by a system message and a turn that fills it, nor by a turn that exceeds it. */
  lemma LimitIsExceeded(system: Message, user: Message, assistant: Message)
    requires system.role.System? && user.role.User? && assistant.role.Assistant?
    ensures |Trim([system, user, user], 2)| == 3 && |Trim([user, assistant, assistant], 2)| == 3
    ensures |Trim([system, assistant, user], 2)| == 2
  {
    var h := [system, user, user];
    assert SystemCount(h) == 1 && KeepFrom(h, 2) == 1 && FirstUser(h, 1) == 1;
    var g := [user, assistant, assistant];
    assert SystemCount(g) == 0 && KeepFrom(g, 2) == 1 && FirstUser(g, 1) == 3;
    var k := [system, assistant, user];
    assert SystemCount(k) == 1 && KeepFrom(k, 2) == 1 && FirstUser(k, 1) == 2;
  }

  lemma TrimIsIdempotent(h: History, max: int)
    ensures Trim(Trim(h, max), max) == Trim(h, max)
  {
    if 0 < max < |h| {
      var sys, k := SystemCount(h), FirstUser(h, KeepFrom(h, max));
      if k < |h| {
        var t := h[..sys] + h[k..];
        SystemCountOfParts(h, k);
        assert t[sys].role.User?;
        if max < |t| {
          assert FirstUser(t, KeepFrom(t, max)) == sys;
          assert t[..sys] + t[sys..] == t;
        }
      }
    }
  }

  // ---------- The conversation grammar ----------

  predicate IsCall(m: Message) {
    m.role.Assistant? && m.toolCalls != []
  }

  /** Messages `i + 1 ..` are the replies to the tool calls of message `i`, in order. */
  predicate Answered(h: History, i: nat)
    requires i < |h|
  {
    && i + |h[i].toolCalls| < |h|
    && forall j | i < j <= i + |h[i].toolCalls| ::
         h[j].role.Tool? && h[j].toolCallId == h[i].toolCalls[j - i - 1].id
  }

  /** Message `j` is one of the replies that belong to some call. */
  predicate Belongs(h: History, j: nat)
    requires j < |h|
  {
    exists i :: 0 <= i < j && IsCall(h[i]) && j <= i + |h[i].toolCalls|
  }

  /**
   What a model provider accepts: every assistant message with tool calls is followed by exactly
   its replies, in order, and every tool message is such a reply.
   */
  predicate WellFormed(h: History) {
    && (forall i | 0 <= i < |h| && IsCall(h[i]) :: Answered(h, i))
    && (forall j | 0 <= j < |h| && h[j].role.Tool? :: Belongs(h, j))
  }

  /** Reply ids that are still missing, or a history that can no longer become well formed. */
  datatype Scan = Broken | Missing(ids: seq<string>)

  function Ids(calls: seq<ToolCall>): (r: seq<string>)
    ensures |r| == |calls|
  {
    seq(|calls|, i requires 0 <= i < |calls| => calls[i].id)
  }

  function ScanMessage(s: Scan, m: Message): Scan {
    match s
    case Broken => Broken
    case Missing(ids) =>
      if m.role.Tool? then
        if ids != [] && ids[0] == m.toolCallId then Missing(ids[1..]) else Broken
      else if ids != [] then Broken
      else if IsCall(m) then Missing(Ids(m.toolCalls))
      else s
  }

  function ScanFrom(s: Scan, h: History): Scan
    decreases |h|
  {
    if h == [] then s else ScanFrom(ScanMessage(s, h[0]), h[1..])
  }

  function ScanAll(h: History): Scan {
    ScanFrom(Missing([]), h)
  }

  lemma {:induction false} ScanAppend(s: Scan, a: History, b: History)
    ensures ScanFrom(s, a + b) == ScanFrom(ScanFrom(s, a), b)
    decreases |a|
  {
    if a == [] {
      assert a + b == b;
    } else {
      assert (a + b)[1..] == a[1..] + b;
      ScanAppend(ScanMessage(s, a[0]), a[1..], b);
    }
  }

  lemma ScanOne(h: History, m: Message)
    ensures ScanAll(h + [m]) == ScanMessage(ScanAll(h), m)
  {
    ScanAppend(Missing([]), h, [m]);
    assert [m][1..] == [];
  }

  lemma {:induction false} BrokenStays(h: History)
    ensures ScanFrom(Broken, h).Broken?
  {
    if h != [] {
      BrokenStays(h[1..]);
    }
  }

  lemma PlainHead(h: History)
    requires h != [] && !h[0].role.Tool? && !IsCall(h[0])
    ensures WellFormed(h) <==> WellFormed(h[1..])
  {
    var t := h[1..];
    assert forall i | 0 <= i < |t| :: t[i] == h[i + 1];
    assert forall i | 0 <= i < |t| && IsCall(t[i]) :: Answered(h, i + 1) <==> Answered(t, i) by {
      forall i | 0 <= i < |t| && IsCall(t[i])
        ensures Answered(h, i + 1) <==> Answered(t, i)
      {
        ShiftedAnswered(h, 1, i);
      }
    }
    forall j | 0 <= j < |t|
      ensures Belongs(h, j + 1) <==> Belongs(t, j)
    {
      ShiftedBelongs(h, 1, j);
    }
    if WellFormed(t) {
      forall i | 0 <= i < |h| && IsCall(h[i])
        ensures Answered(h, i)
      {
        assert Answered(t, i - 1);
      }
      forall j | 0 <= j < |h| && h[j].role.Tool?
        ensures Belongs(h, j)
      {
        assert Belongs(t, j - 1);
      }
    }
  }

  /** Whether a call is answered depends on nothing in front of it. */
  lemma ShiftedAnswered(h: History, n: nat, i: nat)
    requires n + i < |h|
    ensures Answered(h, n + i) <==> Answered(h[n..], i)
  {
    var t := h[n..];
    assert t[i] == h[n + i];
    assert forall j | 0 <= j < |t| :: t[j] == h[n + j];
    assert forall j | n <= j < |h| :: h[j] == t[j - n];
  }

  /** No reply behind position `n` belongs to a call in front of it. */
  predicate Closed(h: History, n: nat)
    requires n <= |h|
  {
    forall i | 0 <= i < n && IsCall(h[i]) :: i + |h[i].toolCalls| < n
  }

  lemma ShiftedBelongs(h: History, n: nat, j: nat)
    requires n + j < |h| && Closed(h, n)
    ensures Belongs(h, n + j) <==> Belongs(h[n..], j)
  {
    var t := h[n..];
    if Belongs(h, n + j) {
      var i :| 0 <= i < n + j && IsCall(h[i]) && n + j <= i + |h[i].toolCalls|;
      assert i >= n;
      assert t[i - n] == h[i];
    }
    if Belongs(t, j) {
      var i :| 0 <= i < j && IsCall(t[i]) && j <= i + |t[i].toolCalls|;
      assert h[n + i] == t[i];
    }
  }

  /** Behind a closed position the grammar can be checked on its own. */
  lemma ShiftedGrammar(h: History, n: nat)
    requires n <= |h| && Closed(h, n)
    ensures forall i | n <= i < |h| :: Answered(h, i) <==> Answered(h[n..], i - n)
    ensures forall j | n <= j < |h| :: Belongs(h, j) <==> Belongs(h[n..], j - n)
  {
    forall i | n <= i < |h|
      ensures Answered(h, i) <==> Answered(h[n..], i - n)
      ensures Belongs(h, i) <==> Belongs(h[n..], i - n)
    {
      ShiftedAnswered(h, n, i - n);
      ShiftedBelongs(h, n, i - n);
    }
  }

  lemma ClosedBehindCall(h: History)
    requires h != [] && IsCall(h[0]) && WellFormed(h)
    ensures Answered(h, 0) && Closed(h, 1 + |h[0].toolCalls|)
  {
    hide Belongs;
    assert Answered(h, 0);
    assert forall i | 0 < i < 1 + |h[0].toolCalls| :: h[i].role.Tool?;
  }

  lemma CallHeadDrops(h: History)
    requires h != [] && IsCall(h[0]) && WellFormed(h)
    ensures Answered(h, 0) && WellFormed(h[1 + |h[0].toolCalls|..])
  {
    var n := 1 + |h[0].toolCalls|;
    ClosedBehindCall(h);
    hide Answered, Belongs, Closed;
    ShiftedGrammar(h, n);
    var t := h[n..];
    forall i | 0 <= i < |t|
      ensures IsCall(t[i]) ==> Answered(t, i)
      ensures t[i].role.Tool? ==> Belongs(t, i)
    {
      assert t[i] == h[n + i];
    }
  }

  lemma CallHeadAdds(h: History)
    requires h != [] && IsCall(h[0]) && Answered(h, 0) && WellFormed(h[1 + |h[0].toolCalls|..])
    ensures WellFormed(h)
  {
    var n := 1 + |h[0].toolCalls|;
    var t := h[n..];
    assert forall i | 0 < i < n :: h[i].role.Tool?;
    ShiftedGrammar(h, n);
    forall i | 0 <= i < |h|
      ensures IsCall(h[i]) ==> Answered(h, i)
      ensures h[i].role.Tool? ==> Belongs(h, i)
    {
      if i >= n {
        assert h[i] == t[i - n];
      } else if i > 0 {
        assert 0 <= 0 < i && IsCall(h[0]) && i <= 0 + |h[0].toolCalls|;
      }
    }
  }

  lemma CallHead(h: History)
    requires h != [] && IsCall(h[0])
    ensures WellFormed(h) <==> Answered(h, 0) && WellFormed(h[1 + |h[0].toolCalls|..])
  {
    if WellFormed(h) {
      CallHeadDrops(h);
    } else if Answered(h, 0) && WellFormed(h[1 + |h[0].toolCalls|..]) {
      CallHeadAdds(h);
    }
  }

  /** The reply ids are consumed one by one; a history that stops early or strays is not accepted. */
  lemma {:induction false} ScanReplies(ids: seq<string>, t: History)
    ensures var matched := |ids| <= |t| && forall k | 0 <= k < |ids| :: t[k].role.Tool? && t[k].toolCallId == ids[k];
            if matched then ScanFrom(Missing(ids), t) == ScanFrom(Missing([]), t[|ids|..])
            else ScanFrom(Missing(ids), t) != Missing([])
    decreases |ids|
  {
    if ids != [] && t != [] {
      if t[0].role.Tool? && t[0].toolCallId == ids[0] {
        ScanReplies(ids[1..], t[1..]);
        if |ids| <= |t| {
          assert t[1..][|ids| - 1..] == t[|ids|..];
          assert forall k | 0 <= k < |ids| - 1 :: t[1..][k] == t[k + 1] && ids[1..][k] == ids[k + 1];
          assert forall k | 1 <= k < |ids| :: t[k] == t[1..][k - 1] && ids[k] == ids[1..][k - 1];
        }
      } else {
        BrokenStays(t[1..]);
      }
    } else if ids == [] {
      assert t[0..] == t;
    }
  }

  lemma ScanCallHead(h: History)
    requires h != [] && IsCall(h[0])
    ensures ScanAll(h) == Missing([]) <==>
            Answered(h, 0) && ScanAll(h[1 + |h[0].toolCalls|..]) == Missing([])
  {
    var ids, t := Ids(h[0].toolCalls), h[1..];
    ScanReplies(ids, t);
    assert forall k | 0 <= k < |t| :: t[k] == h[k + 1];
    assert forall j | 1 <= j < |h| :: h[j] == t[j - 1];
    assert forall k | 0 <= k < |ids| :: ids[k] == h[0].toolCalls[k].id;
    if |ids| <= |t| && forall k | 0 <= k < |ids| :: t[k].role.Tool? && t[k].toolCallId == ids[k] {
      assert Answered(h, 0);
      assert t[|ids|..] == h[1 + |ids|..];
    }
  }

  /** The scanner accepts exactly the well-formed histories. */
  lemma {:induction false} ScanDecidesGrammar(h: History)
    ensures ScanAll(h) == Missing([]) <==> WellFormed(h)
    decreases |h|
  {
    if h != [] {
      if h[0].role.Tool? {
        BrokenStays(h[1..]);
        assert !Belongs(h, 0);
      } else if IsCall(h[0]) {
        CallHead(h);
        ScanCallHead(h);
        if Answered(h, 0) {
          ScanDecidesGrammar(h[1 + |h[0].toolCalls|..]);
        }
      } else {
        PlainHead(h);
        ScanDecidesGrammar(h[1..]);
      }
    }
  }

  lemma {:induction false} SystemPrefixScans(h: History, n: nat)
    requires n <= SystemCount(h)
    ensures ScanAll(h[..n]) == Missing([])
    decreases n
  {
    if n > 0 {
      SystemPrefixScans(h, n - 1);
      assert h[..n] == h[..n - 1] + [h[n - 1]];
      ScanOne(h[..n - 1], h[n - 1]);
    }
  }

  /** Cut at a user message, an unbroken history scans as it did, behind well-formed messages. */
  lemma CutScans(base: History, h: History, k: nat)
    requires !ScanAll(h).Broken? && k < |h| && h[k].role.User? && ScanAll(base) == Missing([])
    ensures ScanAll(base + h[k..]) == ScanAll(h)
  {
    assert h == h[..k] + h[k..];
    ScanAppend(Missing([]), h[..k], h[k..]);
    if ScanAll(h[..k]) != Missing([]) {
      BrokenStays(h[k..][1..]);
    }
    ScanAppend(Missing([]), base, h[k..]);
  }

  /** Trimming, even in the middle of a group of replies, leaves the scan where it was. */
  lemma TrimKeepsScan(h: History, max: int)
    requires !ScanAll(h).Broken?
    ensures ScanAll(Trim(h, max)) == ScanAll(h)
  {
    if 0 < max < |h| {
      var sys, k := SystemCount(h), FirstUser(h, KeepFrom(h, max));
      if k < |h| {
        SystemPrefixScans(h, sys);
        CutScans(h[..sys], h, k);
      }
    }
  }

  lemma AppendScans(h: History, m: Message, max: int)
    requires !ScanMessage(ScanAll(h), m).Broken?
    ensures ScanAll(Append(h, m, max)) == ScanMessage(ScanAll(h), m)
  {
    ScanOne(h, m);
    TrimKeepsScan(h + [m], max);
  }

  function Replies(calls: seq<ToolCall>, results: seq<string>): (r: History)
    requires |results| == |calls|
    ensures |r| == |calls|
  {
    seq(|calls|, i requires 0 <= i < |calls| => ToolMessage(calls[i].id, results[i]))
  }

  // ---------- What may be stored while replies are missing ----------

  /** Storing a user message cuts everything that was there, but for the leading system messages. */
  predicate CutsAll(h: History, m: Message, max: int) {
    m.role.User? && 0 < max <= |h| && forall i | KeepFrom(h + [m], max) <= i < |h| :: !h[i].role.User?
  }

  predicate IsNextReply(ids: seq<string>, m: Message) {
    m.role.Tool? && ids != [] && m.toolCallId == ids[0]
  }

  lemma CutsAllCuts(h: History, m: Message, max: int)
    requires CutsAll(h, m, max)
    ensures Append(h, m, max) == (h + [m])[..SystemCount(h + [m])] + [m]
  {
    AppendTrims(h, m, max);
    var g := h + [m];
    assert FirstUser(g, KeepFrom(g, max)) == |h| by {
      assert forall i | KeepFrom(g, max) <= i < |h| :: g[i] == h[i];
      assert g[|h|] == m;
    }
    assert g[|h|..] == [m];
  }

  lemma UserAloneScans(g: History, m: Message)
    requires m.role.User?
    ensures ScanAll(g[..SystemCount(g)] + [m]) == Missing([])
  {
    SystemPrefixScans(g, SystemCount(g));
    ScanOne(g[..SystemCount(g)], m);
  }

  /** A message that does not fit breaks what is left of the history, unless nothing is left of it. */
  lemma StrayBreaks(h: History, m: Message, max: int)
    requires ScanAll(h).Missing? && ScanMessage(ScanAll(h), m).Broken? && !CutsAll(h, m, max)
    ensures ScanAll(Append(h, m, max)).Broken?
  {
    AppendTrims(h, m, max);
    ScanOne(h, m);
    var g := h + [m];
    if 0 < max < |g| {
      var sys, k := SystemCount(g), FirstUser(g, KeepFrom(g, max));
      assert forall i | 0 <= i < |h| :: g[i] == h[i];
      if k < |h| {
        SystemPrefixScans(g, sys);
        CutScans(g[..sys], h, k);
        assert g[..sys] + g[k..] == g[..sys] + h[k..] + [m];
        ScanOne(g[..sys] + h[k..], m);
      }
    }
  }

  /**
   While replies are missing, an append leaves a history that can still become well formed exactly when
   it stores the next reply, or a user message with which trimming cuts the whole unfinished group; and
   the history is well formed again exactly after the last reply, or such a cut.
   */
  lemma OnlyTheNextReplyFits(h: History, m: Message, max: int)
    requires ScanAll(h).Missing? && ScanAll(h).ids != []
    ensures !ScanAll(Append(h, m, max)).Broken? <==> IsNextReply(ScanAll(h).ids, m) || CutsAll(h, m, max)
    ensures WellFormed(Append(h, m, max)) <==>
            (IsNextReply(ScanAll(h).ids, m) && |ScanAll(h).ids| == 1) || CutsAll(h, m, max)
  {
    ScanDecidesGrammar(Append(h, m, max));
    if IsNextReply(ScanAll(h).ids, m) {
      AppendScans(h, m, max);
    } else if CutsAll(h, m, max) {
      CutsAllCuts(h, m, max);
      UserAloneScans(h + [m], m);
    } else {
      StrayBreaks(h, m, max);
    }
  }

  /** A stray user message with a limit of one message: the unfinished call is cut, and nothing is broken. */
  lemma StrayCanCutAll(call: Message, user: Message)
    requires IsCall(call) && user.role.User?
    ensures ScanAll([call] + [user]).Broken? && Append([call], user, 1) == [user] && WellFormed([user])
  {
    ScanOne([], call);
    assert [] + [call] == [call];
    ScanOne([call], user);
    assert CutsAll([call], user, 1);
    CutsAllCuts([call], user, 1);
    assert SystemCount([call] + [user]) == 0;
    assert [] + [user] == [user];
    ScanOne([], user);
    ScanDecidesGrammar([user]);
  }
}
