/**
 Several runs on one session at once, and cleanups of the session at any time: which conversations the
 model is then sent. The source does not keep runs on a session apart; this is what that costs.
 */
module Interleaving {
  import opened Text
  import opened Sessions
  import opened Agent

  /** What happens to a session: a run stores a message, a run asks the model, or the session is cleaned up. */
  datatype Act =
    | Put(run: nat, m: Message)
    | Ask(run: nat, message: string)
    | Cleanup

  /** The session's history, `h` at first, after these acts. */
  function HistoryAt(h: History, acts: seq<Act>, max: int): History {
    if acts == [] then h
    else
      var before := HistoryAt(h, acts[..|acts| - 1], max);
      match acts[|acts| - 1]
      case Put(_, m) => Append(before, m, max)
      case Ask(_, _) => before
      case Cleanup => []
  }

  /** The messages stored, in order. */
  function StoredBy(acts: seq<Act>): seq<Message> {
    if acts == [] then []
    else StoredBy(acts[..|acts| - 1]) + if acts[|acts| - 1].Put? then [acts[|acts| - 1].m] else []
  }

  /** The ids of the replies that a run owes to the last call it stored in this stretch. */
  function Owed(acts: seq<Act>, run: nat): seq<string> {
    if acts == [] then []
    else
      var before, last := Owed(acts[..|acts| - 1], run), acts[|acts| - 1];
      if !last.Put? || last.run != run then before
      else if IsCall(last.m) then Ids(last.m.toolCalls)
      else if last.m.role.Tool? && before != [] then before[1..]
      else before
  }

  /** A run stores the replies to a call one after the other before it does anything else. */
  predicate InTurn(owed: seq<string>, act: Act) {
    match act
    case Put(_, m) => if owed != [] then IsNextReply(owed, m) else m.role.User? || m.role.Assistant?
    case Ask(_, _) => owed == []
    case Cleanup => true
  }

  /** The acts of any number of runs, each in its own order, and cleanups. */
  predicate Legal(acts: seq<Act>) {
    acts != [] ==>
      var before, last := acts[..|acts| - 1], acts[|acts| - 1];
      Legal(before) && InTurn(if last.Cleanup? then [] else Owed(before, last.run), last)
  }

  // ---------- Which messages are still there ----------

  /** The history is `base`, followed by what the acts from the `from`-th on stored. */
  datatype Kept = Kept(base: History, from: nat)

  /** Position of the act that stored the `n`-th message. */
  function PutAt(acts: seq<Act>, n: nat): (i: nat)
    requires n < |StoredBy(acts)|
    ensures i < |acts| && acts[i].Put? && |StoredBy(acts[..i])| == n
  {
    var last := |acts| - 1;
    if acts[last].Put? && |StoredBy(acts[..last])| == n then last
    else
      var i := PutAt(acts[..last], n);
      assert acts[..last][..i] == acts[..i];
      i
  }

  /** What trimming leaves of a history that is kept like this. */
  function Cut(k: Kept, acts: seq<Act>, max: int): Kept
    requires k.from <= |acts|
  {
    var recent := StoredBy(acts[k.from..]);
    var whole := k.base + recent;
    if max <= 0 || |whole| <= max then k
    else
      var sys, cut := SystemCount(whole), FirstUser(whole, KeepFrom(whole, max));
      if cut == |whole| then k
      else if cut < |k.base| then Kept(whole[..sys] + k.base[cut..], k.from)
      else Kept(whole[..sys], k.from + PutAt(acts[k.from..], cut - |k.base|))
  }

  function KeptAt(h: History, acts: seq<Act>, max: int): (k: Kept)
    ensures k.from <= |acts|
  {
    if acts == [] then Kept(h, 0)
    else
      var before := KeptAt(h, acts[..|acts| - 1], max);
      match acts[|acts| - 1]
      case Put(_, _) => Cut(before, acts, max)
      case Ask(_, _) => before
      case Cleanup => Kept([], |acts|)
  }

  /** The acts whose messages are still in the history. */
  function Recent(h: History, acts: seq<Act>, max: int): seq<Act> {
    acts[KeptAt(h, acts, max).from..]
  }

  lemma {:induction false} StoredAppend(a: seq<Act>, b: seq<Act>)
    ensures StoredBy(a + b) == StoredBy(a) + StoredBy(b)
    decreases |b|
  {
    if b == [] {
      assert a + b == a;
    } else {
      assert (a + b)[..|a + b| - 1] == a + b[..|b| - 1];
      StoredAppend(a, b[..|b| - 1]);
    }
  }

  /** The kept part describes the history, and what it starts with is well formed. */
  predicate Describes(k: Kept, acts: seq<Act>, h: History)
    requires k.from <= |acts|
  {
    && h == k.base + StoredBy(acts[k.from..])
    && ScanAll(k.base) == Missing([])
    && forall i | k.from <= i < |acts| :: !acts[i].Cleanup?
  }

  lemma PutAtSplits(acts: seq<Act>, n: nat)
    requires n < |StoredBy(acts)|
    ensures StoredBy(acts[PutAt(acts, n)..]) == StoredBy(acts)[n..]
  {
    var i := PutAt(acts, n);
    assert acts == acts[..i] + acts[i..];
    StoredAppend(acts[..i], acts[i..]);
  }

  lemma CutInBase(k: Kept, recent: History, sys: nat, cut: nat)
    requires ScanAll(k.base) == Missing([]) && cut < |k.base| && (k.base + recent)[cut].role.User?
    requires sys <= SystemCount(k.base + recent)
    ensures var whole := k.base + recent; var base := whole[..sys] + k.base[cut..];
            whole[..sys] + whole[cut..] == base + recent && ScanAll(base) == Missing([])
  {
    var whole := k.base + recent;
    SystemPrefixScans(whole, sys);
    assert whole[cut] == k.base[cut];
    assert whole[cut..] == k.base[cut..] + recent;
    Associative(whole[..sys], k.base[cut..], recent);
    CutScans(whole[..sys], k.base, cut);
  }

  lemma CutInRecent(k: Kept, acts: seq<Act>, sys: nat, cut: nat)
    requires k.from <= |acts|
    requires var whole := k.base + StoredBy(acts[k.from..]); |k.base| <= cut < |whole| && sys <= SystemCount(whole)
    ensures var whole, recent := k.base + StoredBy(acts[k.from..]), acts[k.from..];
            var from := k.from + PutAt(recent, cut - |k.base|);
            from <= |acts| && whole[cut..] == StoredBy(acts[from..]) && ScanAll(whole[..sys]) == Missing([])
  {
    hide StoredBy, ScanAll, SystemCount;
    var whole, recent, n := k.base + StoredBy(acts[k.from..]), acts[k.from..], cut - |k.base|;
    SystemPrefixScans(whole, sys);
    PutAtSplits(recent, n);
    assert recent[PutAt(recent, n)..] == acts[k.from + PutAt(recent, n)..];
    assert whole[cut..] == StoredBy(recent)[n..];
  }

  lemma CutDescribes(k: Kept, acts: seq<Act>, h: History, max: int)
    requires k.from <= |acts| && Describes(k, acts, h)
    ensures k.from <= Cut(k, acts, max).from <= |acts| && Describes(Cut(k, acts, max), acts, Trim(h, max))
  {
    hide ScanAll, SystemCount, StoredBy;
    if 0 < max < |h| {
      var sys, cut := SystemCount(h), FirstUser(h, KeepFrom(h, max));
      if cut < |k.base| {
        CutInBase(k, StoredBy(acts[k.from..]), sys, cut);
      } else if cut < |h| {
        CutInRecent(k, acts, sys, cut);
      }
    }
  }

  lemma StoredOne(init: seq<Act>, last: Act)
    ensures StoredBy(init + [last]) == StoredBy(init) + if last.Put? then [last.m] else []
  {
    assert (init + [last])[..|init|] == init;
  }

  /** What describes the history describes it after a message is pushed. */
  lemma PushDescribes(k: Kept, init: seq<Act>, last: Act, h: History)
    requires k.from <= |init| && Describes(k, init, h) && !last.Cleanup?
    ensures Describes(k, init + [last], h + if last.Put? then [last.m] else [])
  {
    var acts, more := init + [last], if last.Put? then [last.m] else [];
    assert acts[k.from..] == init[k.from..] + [last];
    StoredOne(init[k.from..], last);
    Associative(k.base, StoredBy(init[k.from..]), more);
  }

  lemma {:induction false} KeptDescribes(h: History, acts: seq<Act>, max: int)
    requires ScanAll(h) == Missing([])
    ensures Describes(KeptAt(h, acts, max), acts, HistoryAt(h, acts, max))
    decreases |acts|
  {
    hide Describes, Cut, Append;
    if acts == [] {
      NothingYet(h);
    } else {
      var init, last := acts[..|acts| - 1], acts[|acts| - 1];
      var k, before := KeptAt(h, init, max), HistoryAt(h, init, max);
      KeptDescribes(h, init, max);
      assert acts == init + [last];
      match last
      case Put(_, m) =>
        PushDescribes(k, init, last, before);
        CutDescribes(k, acts, before + [m], max);
        AppendTrims(before, m, max);
      case Ask(_, _) =>
        PushDescribes(k, init, last, before);
        assert before + [] == before;
      case Cleanup =>
        NothingLeft(acts);
    }
  }

  lemma NothingYet(h: History)
    requires ScanAll(h) == Missing([])
    ensures Describes(Kept(h, 0), [], h)
  {
    assert h + [] == h;
  }

  lemma NothingLeft(acts: seq<Act>)
    ensures Describes(Kept([], |acts|), acts, [])
  {
    assert acts[|acts|..] == [];
  }

  // ---------- Disturbances ----------

  /**
   The act stores a reply whose call is not in this stretch, or stores between another run's call and
   the last of its replies.
   */
  ghost predicate Disturbs(acts: seq<Act>, i: nat)
    requires i < |acts|
  {
    acts[i].Put? &&
    ((acts[i].m.role.Tool? && Owed(acts[..i], acts[i].run) == [])
     || exists other :: other != acts[i].run && Owed(acts[..i], other) != [])
  }

  /** Nothing in the stretch disturbs a group, and no run owes a reply at its end. */
  ghost predicate Undisturbed(acts: seq<Act>) {
    (forall i | 0 <= i < |acts| :: !Disturbs(acts, i)) && forall run :: Owed(acts, run) == []
  }

  /** A reply without its call in this stretch never carries the id that another run waits for. */
  ghost predicate NoAccident(acts: seq<Act>) {
    forall i, other | 0 <= i < |acts| && acts[i].Put? && Owed(acts[..i], acts[i].run) == [] ::
      !IsNextReply(Owed(acts[..i], other), acts[i].m)
  }

  /** A stretch of legal acts: replies at its start may belong to calls before it. */
  predicate IsStretch(acts: seq<Act>) {
    acts != [] ==>
      var before, last := acts[..|acts| - 1], acts[|acts| - 1];
      IsStretch(before) && !last.Cleanup?
      && (last.Put? ==>
            var owed := Owed(before, last.run);
            if owed != [] then IsNextReply(owed, last.m)
            else last.m.role.Tool? || last.m.role.User? || last.m.role.Assistant?)
  }

  /** At most one run owes replies, and these. */
  ghost predicate OnlyOwed(acts: seq<Act>, ids: seq<string>) {
    && (forall run :: Owed(acts, run) == [] || Owed(acts, run) == ids)
    && (ids != [] ==> exists run :: Owed(acts, run) != [])
    && (forall a, b :: a != b ==> Owed(acts, a) == [] || Owed(acts, b) == [])
  }

  ghost predicate QuietSoFar(acts: seq<Act>) {
    forall i | 0 <= i < |acts| :: !Disturbs(acts, i)
  }

  lemma QuietPrefix(acts: seq<Act>)
    requires acts != []
    ensures QuietSoFar(acts) <==> QuietSoFar(acts[..|acts| - 1]) && !Disturbs(acts, |acts| - 1)
  {
    var init := acts[..|acts| - 1];
    assert forall i | 0 <= i < |init| :: acts[..i] == init[..i];
    assert forall i | 0 <= i < |init| :: Disturbs(acts, i) <==> Disturbs(init, i);
  }

  /** The scan of what a stretch stored, behind something well formed. */
  lemma {:induction false} StretchScans(base: History, acts: seq<Act>) returns (ids: seq<string>)
    requires ScanAll(base) == Missing([]) && IsStretch(acts) && NoAccident(acts)
    ensures QuietSoFar(acts) ==> ScanAll(base + StoredBy(acts)) == Missing(ids) && OnlyOwed(acts, ids)
    ensures !QuietSoFar(acts) ==> ScanAll(base + StoredBy(acts)).Broken?
    decreases |acts|
  {
    ids := [];
    if acts == [] {
      assert base + StoredBy(acts) == base;
    } else {
      var init, last := acts[..|acts| - 1], acts[|acts| - 1];
      AccidentPrefix(acts);
      ids := StretchScans(base, init);
      QuietPrefix(acts);
      if last.Put? {
        Associative(base, StoredBy(init), [last.m]);
        ScanOne(base + StoredBy(init), last.m);
        if QuietSoFar(init) {
          ids := PutScans(acts, ids);
        }
      } else {
        assert StoredBy(acts) == StoredBy(init);
        if QuietSoFar(init) {
          OwedStays(acts, ids);
        }
      }
    }
  }

  lemma OwedStays(acts: seq<Act>, ids: seq<string>)
    requires acts != [] && !acts[|acts| - 1].Put? && OnlyOwed(acts[..|acts| - 1], ids)
    ensures OnlyOwed(acts, ids)
  {
    var init := acts[..|acts| - 1];
    assert forall run :: Owed(acts, run) == Owed(init, run);
    if ids != [] {
      var run :| Owed(init, run) != [];
      assert Owed(acts, run) != [];
    }
  }

  lemma AccidentPrefix(acts: seq<Act>)
    requires acts != [] && NoAccident(acts)
    ensures NoAccident(acts[..|acts| - 1])
  {
    var init := acts[..|acts| - 1];
    assert forall i | 0 <= i < |init| :: acts[..i] == init[..i];
  }

  /** One more message, after a quiet stretch that leaves `ids` outstanding. */
  lemma PutScans(acts: seq<Act>, ids: seq<string>) returns (next: seq<string>)
    requires acts != [] && acts[|acts| - 1].Put? && IsStretch(acts) && NoAccident(acts)
    requires OnlyOwed(acts[..|acts| - 1], ids)
    ensures var m := acts[|acts| - 1].m;
            if Disturbs(acts, |acts| - 1) then ScanMessage(Missing(ids), m).Broken?
            else ScanMessage(Missing(ids), m) == Missing(next) && OnlyOwed(acts, next)
  {
    var init, last := acts[..|acts| - 1], acts[|acts| - 1];
    var owed := Owed(init, last.run);
    next := Owed(acts, last.run);
    assert forall other | other != last.run :: Owed(acts, other) == Owed(init, other);
    if ids != [] && owed == [] {
      var other :| Owed(init, other) != [];
      assert !IsNextReply(Owed(init, other), last.m);
    }
  }

  // ---------- Stretches of legal acts ----------

  lemma {:induction false} OwedInSuffix(acts: seq<Act>, from: nat, run: nat)
    requires from <= |acts|
    ensures Owed(acts[from..], run) == [] || Owed(acts[from..], run) == Owed(acts, run)
    decreases |acts| - from
  {
    if from < |acts| {
      var init := acts[..|acts| - 1];
      OwedInSuffix(init, from, run);
      assert acts[from..][..|acts| - from - 1] == init[from..];
    }
  }

  predicate NoCleanup(acts: seq<Act>) {
    forall i | 0 <= i < |acts| :: !acts[i].Cleanup?
  }

  lemma {:induction false} SuffixIsStretch(acts: seq<Act>, from: nat)
    requires Legal(acts) && from <= |acts| && NoCleanup(acts[from..])
    ensures IsStretch(acts[from..])
    decreases |acts| - from
  {
    if from < |acts| {
      var init, last := acts[..|acts| - 1], acts[|acts| - 1];
      var stretch := acts[from..];
      assert stretch[..|stretch| - 1] == init[from..] && stretch[|stretch| - 1] == last;
      assert forall i | 0 <= i < |init[from..]| :: init[from..][i] == stretch[i];
      SuffixIsStretch(init, from);
      if last.Put? {
        OwedInSuffix(init, from, last.run);
      }
    }
  }

  /** No run stores a reply with an id that another run's calls use. */
  predicate OwnIds(acts: seq<Act>) {
    forall i, j | 0 <= i < |acts| && 0 <= j < |acts| && acts[i].Put? && acts[j].Put? && acts[i].run != acts[j].run ::
      acts[i].m.role.Tool? && IsCall(acts[j].m) ==> acts[i].m.toolCallId !in Ids(acts[j].m.toolCalls)
  }

  /** What a run owes are ids of a call it stored. */
  lemma {:induction false} OwedFromCall(acts: seq<Act>, run: nat) returns (j: nat)
    requires Owed(acts, run) != []
    ensures j < |acts| && acts[j].Put? && acts[j].run == run && IsCall(acts[j].m)
    ensures forall id | id in Owed(acts, run) :: id in Ids(acts[j].m.toolCalls)
    decreases |acts|
  {
    var init, last := acts[..|acts| - 1], acts[|acts| - 1];
    if last.Put? && last.run == run && IsCall(last.m) {
      j := |acts| - 1;
    } else {
      j := OwedFromCall(init, run);
      assert forall id | id in Owed(acts, run) :: id in Owed(init, run);
    }
  }

  lemma OwnIdsNoAccident(acts: seq<Act>, from: nat)
    requires from <= |acts| && OwnIds(acts)
    ensures NoAccident(acts[from..])
  {
    var part := acts[from..];
    forall i, other | 0 <= i < |part| && part[i].Put? && Owed(part[..i], part[i].run) == []
      ensures !IsNextReply(Owed(part[..i], other), part[i].m)
    {
      if Owed(part[..i], other) != [] {
        var j := OwedFromCall(part[..i], other);
        assert part[j] == acts[from + j] && part[i] == acts[from + i];
        assert Owed(part[..i], other)[0] in Owed(part[..i], other);
      }
    }
  }

  lemma QuietNoAccident(acts: seq<Act>)
    requires QuietSoFar(acts)
    ensures NoAccident(acts)
  {
    forall i, other | 0 <= i < |acts| && acts[i].Put? && Owed(acts[..i], acts[i].run) == []
      ensures !IsNextReply(Owed(acts[..i], other), acts[i].m)
    {
      assert !Disturbs(acts, i);
    }
  }

  lemma {:induction false} LegalPrefix(acts: seq<Act>, i: nat)
    requires Legal(acts) && i <= |acts|
    ensures Legal(acts[..i])
    decreases |acts| - i
  {
    if i < |acts| {
      LegalPrefix(acts[..|acts| - 1], i);
      assert acts[..|acts| - 1][..i] == acts[..i];
    } else {
      assert acts[..i] == acts;
    }
  }

  lemma WholeNoAccident(acts: seq<Act>)
    requires Legal(acts)
    ensures NoAccident(acts)
  {
    forall i, other | 0 <= i < |acts| && acts[i].Put? && Owed(acts[..i], acts[i].run) == []
      ensures !IsNextReply(Owed(acts[..i], other), acts[i].m)
    {
      LegalPrefix(acts, i + 1);
      assert acts[..i + 1][..i] == acts[..i];
    }
  }

  // ---------- What the model is sent ----------

  lemma PromptScans(h: History, message: string)
    ensures WellFormed(Prompt(h, message)) <==> ScanAll(h) == Missing([])
  {
    if message != "" {
      ScanOne(h, UserMessage(message));
    }
    ScanDecidesGrammar(Prompt(h, message));
  }

  /**
   What the model is sent is well formed exactly when, among the acts whose messages are still in the
   history, nothing disturbs a group and no run owes a reply. Whatever the limit, wherever trimming
   cuts and whenever the session is cleaned up, the condition suffices; it is necessary too, unless
   among those acts a reply whose call is gone happens to carry the id that another run waits for.
   */
  lemma PromptIffUndisturbed(h: History, acts: seq<Act>, max: int, message: string)
    requires WellFormed(h) && Legal(acts)
    ensures Undisturbed(Recent(h, acts, max)) ==> WellFormed(Prompt(HistoryAt(h, acts, max), message))
    ensures NoAccident(Recent(h, acts, max)) ==>
              (WellFormed(Prompt(HistoryAt(h, acts, max), message)) <==> Undisturbed(Recent(h, acts, max)))
  {
    var k, recent := KeptAt(h, acts, max), Recent(h, acts, max);
    ScanDecidesGrammar(h);
    KeptDescribes(h, acts, max);
    PromptScans(HistoryAt(h, acts, max), message);
    assert NoCleanup(recent);
    SuffixIsStretch(acts, k.from);
    if QuietSoFar(recent) {
      QuietNoAccident(recent);
    }
    if NoAccident(recent) {
      var ids := StretchScans(k.base, recent);
    }
  }

  /** Such an accident takes shared ids, and a call that is gone. */
  lemma AccidentNeedsSharedIdAndCut(h: History, acts: seq<Act>, max: int)
    requires Legal(acts) && !NoAccident(Recent(h, acts, max))
    ensures !OwnIds(acts) && KeptAt(h, acts, max).from > 0
  {
    if OwnIds(acts) {
      OwnIdsNoAccident(acts, KeptAt(h, acts, max).from);
    }
    if KeptAt(h, acts, max).from == 0 {
      assert acts[0..] == acts;
      WholeNoAccident(acts);
    }
  }

  /** Every conversation sent to the model in the course of these acts is well formed. */
  ghost predicate EveryPromptWellFormed(h: History, acts: seq<Act>, max: int) {
    forall t | 0 <= t < |acts| && acts[t].Ask? :: WellFormed(Prompt(HistoryAt(h, acts[..t], max), acts[t].message))
  }

  /** No model call is made while a group that is still in the history is disturbed or unfinished. */
  ghost predicate AsksUndisturbed(h: History, acts: seq<Act>, max: int) {
    forall t | 0 <= t < |acts| && acts[t].Ask? :: Undisturbed(Recent(h, acts[..t], max))
  }

  /** No model call comes when a reply whose call is gone fits another run's call. */
  ghost predicate NoAccidents(h: History, acts: seq<Act>, max: int) {
    forall t | 0 <= t < |acts| && acts[t].Ask? :: NoAccident(Recent(h, acts[..t], max))
  }

  /** For any interleaving of any number of runs, and cleanups at any time. */
  lemma InterleavedPrompts(h: History, acts: seq<Act>, max: int)
    requires WellFormed(h) && Legal(acts)
    ensures AsksUndisturbed(h, acts, max) ==> EveryPromptWellFormed(h, acts, max)
    ensures NoAccidents(h, acts, max) ==> (EveryPromptWellFormed(h, acts, max) <==> AsksUndisturbed(h, acts, max))
  {
    forall t | 0 <= t < |acts| && acts[t].Ask?
      ensures Undisturbed(Recent(h, acts[..t], max)) ==>
                WellFormed(Prompt(HistoryAt(h, acts[..t], max), acts[t].message))
      ensures NoAccident(Recent(h, acts[..t], max)) ==>
                (WellFormed(Prompt(HistoryAt(h, acts[..t], max), acts[t].message))
                 <==> Undisturbed(Recent(h, acts[..t], max)))
    {
      LegalPrefix(acts, t);
      PromptIffUndisturbed(h, acts[..t], max, acts[t].message);
    }
  }

  /** Runs that do not share ids meet with no accident. */
  lemma OwnIdsMeanNoAccidents(h: History, acts: seq<Act>, max: int)
    requires Legal(acts) && OwnIds(acts)
    ensures NoAccidents(h, acts, max)
  {
    forall t | 0 <= t < |acts| && acts[t].Ask?
      ensures NoAccident(Recent(h, acts[..t], max))
    {
      OwnIdsNoAccident(acts[..t], KeptAt(h, acts[..t], max).from);
    }
  }

  lemma {:induction false} UncutKeepsAll(h: History, acts: seq<Act>, max: int)
    requires NoCleanup(acts) && (max <= 0 || |h| + |StoredBy(acts)| <= max)
    ensures KeptAt(h, acts, max) == Kept(h, 0)
    decreases |acts|
  {
    if acts != [] {
      UncutKeepsAll(h, acts[..|acts| - 1], max);
      assert acts[0..] == acts;
    }
  }

  lemma UncutPrompt(h: History, acts: seq<Act>, max: int, message: string)
    requires WellFormed(h) && Legal(acts) && NoCleanup(acts) && (max <= 0 || |h| + |StoredBy(acts)| <= max)
    ensures WellFormed(Prompt(HistoryAt(h, acts, max), message)) <==> Undisturbed(acts)
  {
    UncutKeepsAll(h, acts, max);
    assert acts[0..] == acts;
    WholeNoAccident(acts);
    PromptIffUndisturbed(h, acts, max, message);
  }

  lemma StoredGrows(acts: seq<Act>, t: nat)
    requires t <= |acts|
    ensures |StoredBy(acts[..t])| <= |StoredBy(acts)|
  {
    assert acts == acts[..t] + acts[t..];
    StoredAppend(acts[..t], acts[t..]);
  }

  /** While nothing is trimmed or cleaned up the condition is about the whole interleaving, whatever the ids. */
  lemma UncutPrompts(h: History, acts: seq<Act>, max: int)
    requires WellFormed(h) && Legal(acts) && NoCleanup(acts) && (max <= 0 || |h| + |StoredBy(acts)| <= max)
    ensures EveryPromptWellFormed(h, acts, max) <==>
            forall t | 0 <= t < |acts| && acts[t].Ask? :: Undisturbed(acts[..t])
  {
    forall t | 0 <= t < |acts| && acts[t].Ask?
      ensures WellFormed(Prompt(HistoryAt(h, acts[..t], max), acts[t].message)) <==> Undisturbed(acts[..t])
    {
      StoredGrows(acts, t);
      LegalPrefix(acts, t);
      UncutPrompt(h, acts[..t], max, acts[t].message);
    }
  }

  // ---------- Overlapping runs do harm ----------

  lemma HistoryOne(h: History, acts: seq<Act>, act: Act, max: int)
    ensures HistoryAt(h, acts + [act], max) ==
            if act.Cleanup? then []
            else if act.Put? then Append(HistoryAt(h, acts, max), act.m, max)
            else HistoryAt(h, acts, max)
  {
    assert (acts + [act])[..|acts|] == acts;
  }

  lemma LegalOne(acts: seq<Act>, act: Act)
    requires Legal(acts) && InTurn(if act.Cleanup? then [] else Owed(acts, act.run), act)
    ensures Legal(acts + [act])
  {
    assert (acts + [act])[..|acts|] == acts;
  }

  lemma OwedOne(acts: seq<Act>, act: Act, run: nat)
    ensures Owed(acts + [act], run) ==
            if !act.Put? || act.run != run then Owed(acts, run)
            else if IsCall(act.m) then Ids(act.m.toolCalls)
            else if act.m.role.Tool? && Owed(acts, run) != [] then Owed(acts, run)[1..]
            else Owed(acts, run)
  {
    assert (acts + [act])[..|acts|] == acts;
  }

  /** A run asked and was told to call tools: it has stored the question, if there is one, and the call. */
  function Called(question: string, calls: seq<ToolCall>): seq<Act> {
    [Ask(0, question)] + Told(question) + [Put(0, CallMessage(calls, ""))]
  }

  function Told(question: string): seq<Act> {
    if question == "" then [] else [Put(0, UserMessage(question))]
  }

  /** Then another run asks. */
  function Overlap(question: string, calls: seq<ToolCall>, other: string): seq<Act> {
    Called(question, calls) + [Ask(1, other)]
  }

  /** Whatever the session held and whatever its limit, the other run's prompt is malformed. */
  lemma OverlapBreaksAPrompt(h: History, max: int, question: string, calls: seq<ToolCall>, other: string)
    requires WellFormed(h) && calls != []
    ensures Legal(Overlap(question, calls, other))
    ensures !WellFormed(Prompt(HistoryAt(h, Called(question, calls), max), other))
    ensures !EveryPromptWellFormed(h, Overlap(question, calls, other), max)
  {
    var acts := Overlap(question, calls, other);
    var t := |acts| - 1;
    assert acts[..t] == Called(question, calls) && acts[t] == Ask(1, other);
    CalledIsLegal(question, calls);
    CalledScans(h, max, question, calls);
    PromptScans(HistoryAt(h, Called(question, calls), max), other);
    LegalOne(Called(question, calls), Ask(1, other));
  }

  lemma CalledScans(h: History, max: int, question: string, calls: seq<ToolCall>)
    requires WellFormed(h)
    ensures ScanAll(HistoryAt(h, Called(question, calls), max)) == Missing(Ids(calls))
  {
    var asked := [Ask(0, question)];
    var told := asked + Told(question);
    ScanDecidesGrammar(h);
    HistoryOne(h, [], Ask(0, question), max);
    assert [] + [Ask(0, question)] == asked;
    HistoryOne(h, asked, Put(0, UserMessage(question)), max);
    AppendScans(h, UserMessage(question), max);
    assert question == "" ==> told == asked;
    HistoryOne(h, told, Put(0, CallMessage(calls, "")), max);
    AppendScans(HistoryAt(h, told, max), CallMessage(calls, ""), max);
  }

  lemma CalledIsLegal(question: string, calls: seq<ToolCall>)
    requires calls != []
    ensures Legal(Called(question, calls)) && Owed(Called(question, calls), 1) == []
  {
    var asked := [Ask(0, question)];
    var told := asked + Told(question);
    LegalOne([], Ask(0, question));
    assert [] + [Ask(0, question)] == asked;
    assert question == "" ==> told == asked;
    LegalOne(asked, Put(0, UserMessage(question)));
    LegalOne(told, Put(0, CallMessage(calls, "")));
    forall run: nat
      ensures Owed(told, run) == []
    {
      OwedOne([], Ask(0, question), run);
      OwedOne(asked, Put(0, UserMessage(question)), run);
    }
    OwedOne(told, Put(0, CallMessage(calls, "")), 1);
  }

  // ---------- Why ids matter ----------

  /** Two runs whose calls have the same id: the first call is cut when the other run's user message arrives. */
  function SharedId(id: string, question: string): seq<Act> {
    var call := CallMessage([ToolCall(id, "", "")], "");
    [Put(1, call)] + [Put(0, UserMessage(question))] + [Put(0, call)] + [Put(1, ToolMessage(id, ""))]
  }

  lemma TrimmedToOne(call: Message, user: Message, reply: Message)
    requires IsCall(call) && user.role.User? && reply.role.Tool?
    ensures Append([], call, 1) == [call] && Append([call], user, 1) == [user]
    ensures Append([user], call, 1) == [user, call] && Append([user, call], reply, 1) == [user, call, reply]
  {
    StrayCanCutAll(call, user);
    assert [] + [call] == [call] && [user] + [call] == [user, call];
    assert FirstUser([user, call], 1) == 2;
    assert FirstUser([user, call] + [reply], 2) == 3;
  }

  lemma SharedIdHistory(id: string, question: string)
    ensures var call := CallMessage([ToolCall(id, "", "")], "");
            HistoryAt([], SharedId(id, question), 1) == [UserMessage(question), call, ToolMessage(id, "")]
  {
    var call, user, reply := CallMessage([ToolCall(id, "", "")], ""), UserMessage(question), ToolMessage(id, "");
    hide Append;
    TrimmedToOne(call, user, reply);
    assert [] + [Put(1, call)] == [Put(1, call)];
    HistoryOne([], [], Put(1, call), 1);
    HistoryOne([], [Put(1, call)], Put(0, user), 1);
    HistoryOne([], [Put(1, call)] + [Put(0, user)], Put(0, call), 1);
    HistoryOne([], [Put(1, call)] + [Put(0, user)] + [Put(0, call)], Put(1, reply), 1);
  }

  lemma KeptOne(h: History, acts: seq<Act>, act: Act, max: int)
    requires act.Put?
    ensures KeptAt(h, acts + [act], max) == Cut(KeptAt(h, acts, max), acts + [act], max)
  {
    assert (acts + [act])[..|acts|] == acts;
  }

  /** Nothing is cut when the history fits, or holds no user message that may start it. */
  lemma NothingCut(from: nat, acts: seq<Act>, recent: History, max: nat)
    requires from <= |acts| && StoredBy(acts[from..]) == recent
    requires |recent| <= max || max == 0 || FirstUser(recent, KeepFrom(recent, max)) == |recent|
    ensures Cut(Kept([], from), acts, max) == Kept([], from)
  {
    assert [] + recent == recent;
  }

  lemma SecondStored(call: Act, user: Act)
    requires call.Put? && user.Put? && IsCall(call.m) && user.m.role.User?
    ensures Cut(Kept([], 0), [call] + [user], 1) == Kept([], 1)
  {
    var acts, recent := [call] + [user], [call.m] + [user.m];
    assert acts[0..] == acts && [] + [call] == [call] && [] + [call.m] == [call.m];
    StoredOne([], call);
    StoredOne([call], user);
    assert [] + StoredBy(acts) == recent;
    assert FirstUser(recent, 1) == 1 && recent[..0] == [];
    assert acts[..1] == [call];
    assert PutAt(acts, 1) == 1;
  }

  lemma StoredSuffix(acts: seq<Act>, act: Act, from: nat)
    requires from <= |acts| && act.Put?
    ensures StoredBy((acts + [act])[from..]) == StoredBy(acts[from..]) + [act.m]
  {
    assert (acts + [act])[from..] == acts[from..] + [act];
    StoredOne(acts[from..], act);
  }

  lemma SharedIdKept(id: string, question: string)
    ensures KeptAt([], SharedId(id, question), 1) == Kept([], 1)
  {
    hide Cut;
    var call, user, reply := CallMessage([ToolCall(id, "", "")], ""), UserMessage(question), ToolMessage(id, "");
    var one := [Put(1, call)];
    var two := one + [Put(0, user)];
    var three := two + [Put(0, call)];
    assert [] + one == one && one[0..] == one && [] + [call] == [call];
    StoredOne([], Put(1, call));
    KeptOne([], [], Put(1, call), 1);
    NothingCut(0, one, [call], 1);
    KeptOne([], one, Put(0, user), 1);
    SecondStored(Put(1, call), Put(0, user));
    StoredSuffix(one, Put(0, user), 1);
    assert one[1..] == [] && [] + [user] == [user];
    KeptOne([], two, Put(0, call), 1);
    StoredSuffix(two, Put(0, call), 1);
    assert FirstUser([user] + [call], 1) == 2;
    NothingCut(1, three, [user] + [call], 1);
    KeptOne([], three, Put(1, reply), 1);
    StoredSuffix(three, Put(1, reply), 1);
    assert FirstUser([user] + [call] + [reply], 2) == 3;
    NothingCut(1, three + [Put(1, reply)], [user] + [call] + [reply], 1);
  }

  /** The reply whose call was cut answers the other run's call: the prompt is well formed by accident. */
  lemma SharedIdHidesAStray(id: string, question: string)
    ensures var acts := SharedId(id, question);
            WellFormed(Prompt(HistoryAt([], acts, 1), "")) && !Undisturbed(Recent([], acts, 1)) && !OwnIds(acts)
  {
    var call, user, reply := CallMessage([ToolCall(id, "", "")], ""), UserMessage(question), ToolMessage(id, "");
    var acts := SharedId(id, question);
    hide HistoryAt, KeptAt;
    SharedIdHistory(id, question);
    SharedIdKept(id, question);
    var h := [user, call, reply];
    assert IsCall(h[1]) && Answered(h, 1);
    assert Belongs(h, 2);
    assert WellFormed(h);
    var recent := acts[1..];
    assert recent[2] == Put(1, reply) && recent[..2] == [Put(0, user)] + [Put(0, call)];
    OwedOne([Put(0, user)], Put(0, call), 1);
    OwedOne([], Put(0, user), 1);
    assert [] + [Put(0, user)] == [Put(0, user)];
    assert Disturbs(recent, 2);
    assert acts[3] == Put(1, reply) && acts[2] == Put(0, call);
    assert Ids(call.toolCalls)[0] == id;
  }
}
