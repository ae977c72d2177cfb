/**
 Timers: a heap of nodes with lazy deletion, seen as a machine whose steps are the sections the
 manager runs under its lock, and the start of each callback. Any step of any thread may come
 between two others, so a callback is an arbitrary run of `Add`, `Cancel` and `Clean` steps, and another
 thread may cancel a timer after it was checked for cancellation and before its callback starts.
 */
module Timers {
  import opened Text

  const TWO64: nat := 0x1_0000_0000_0000_0000

  /** Times are unsigned 64-bit numbers of milliseconds. */
  type Time = t: nat | t < TWO64

  function Wrap(t: nat): Time {
    t % TWO64
  }

  datatype Node = Node(id: nat, expire: Time, interval: nat)

  /**
   `heap` is the priority queue and `due` the nodes `process_expired_timers` has popped and not yet
   looked at; `current` is the node it found not cancelled, whose callback executes once it is
   `started`; `now` is the latest clock reading.
   */
  datatype Manager = Manager(
    heap: set<Node>,
    active: set<nat>,
    canceled: set<nat>,
    nextId: nat,
    due: seq<Node>,
    current: Option<Node>,
    started: bool,
    now: nat)
  {
    predicate Idle() {
      due == [] && current.None?
    }

    /** The node that was checked and whose callback has not started yet. */
    function Checked(): Option<Node> {
      if started then None else current
    }
  }

  const NEW := Manager({}, {}, {}, 1, [], None, false, 0)

  /** A step, with everything that is not determined by the state: clock readings and pop order. */
  datatype Event =
    | Add(t: nat, delay: nat, interval: nat, id: nat)
    | Cancel(id: nat, ok: bool)
    | Clean
    | Collect(t: nat, due: seq<Node>)
    | Skip(node: Node)
    | Check(node: Node)
    | Start(node: Node, t: nat)
    | Finish(t: nat)

  predicate SortedByExpiry(nodes: seq<Node>) {
    forall i, j | 0 <= i < j < |nodes| :: nodes[i].expire <= nodes[j].expire
  }

  predicate DistinctIds(nodes: seq<Node>) {
    forall i, j | 0 <= i < j < |nodes| :: nodes[i].id != nodes[j].id
  }

  predicate IsDueAt(m: Manager, t: nat, n: Node) {
    n in m.heap && n.expire <= t && n.id !in m.canceled
  }

  predicate Enabled(m: Manager, e: Event) {
    match e
    case Add(t, delay, interval, id) => m.now <= t < TWO64 && delay < TWO64 && interval < TWO64 && id == m.nextId
    case Cancel(id, ok) => ok == (id in m.active)
    case Clean => true
    case Collect(t, due) =>
      && m.Idle() && m.now <= t < TWO64
      && SortedByExpiry(due) && DistinctIds(due)
      && (forall n | n in due :: IsDueAt(m, t, n))
      && (forall n | n in m.heap :: IsDueAt(m, t, n) ==> n in due)
    case Skip(node) => m.current.None? && m.due != [] && m.due[0] == node && node.id in m.canceled
    case Check(node) => m.current.None? && m.due != [] && m.due[0] == node && node.id !in m.canceled
    case Start(node, t) => m.Checked() == Some(node) && m.now <= t < TWO64
    case Finish(t) => m.current.Some? && m.started && m.now <= t < TWO64
  }

  function Next(m: Manager, e: Event): Manager
    requires Enabled(m, e)
  {
    match e
    case Add(t, delay, interval, id) =>
      m.(heap := m.heap + {Node(id, Wrap(t + delay), interval)}, active := m.active + {id}, nextId := id + 1, now := t)
    case Cancel(id, ok) =>
      if ok then m.(active := m.active - {id}, canceled := m.canceled + {id}) else m
    case Clean =>
      var dropped := set n | n in m.heap && n.id in m.canceled;
      m.(heap := m.heap - dropped, canceled := m.canceled - (set n | n in dropped :: n.id))
    case Collect(t, due) =>
      var popped := set n | n in m.heap && n.expire <= t;
      var marked := set n | n in popped && n.id in m.canceled :: n.id;
      m.(heap := m.heap - popped, canceled := m.canceled - marked, active := m.active - marked, due := due, now := t)
    case Skip(node) =>
      m.(due := m.due[1..], canceled := m.canceled - {node.id}, active := m.active - {node.id})
    case Check(node) =>
      m.(due := m.due[1..], current := Some(node), started := false)
    case Start(_, t) =>
      m.(started := true, now := t)
    case Finish(t) =>
      var node := m.current.value;
      if node.id in m.canceled then
        m.(current := None, started := false, now := t,
           canceled := m.canceled - {node.id}, active := m.active - {node.id})
      else if node.interval > 0 then
        m.(current := None, started := false, now := t,
           heap := m.heap + {node.(expire := Wrap(t + node.interval))})
      else
        m.(current := None, started := false, active := m.active - {node.id}, now := t)
  }

  predicate Legal(m: Manager, run: seq<Event>)
    decreases |run|
  {
    run == [] || (Enabled(m, run[0]) && Legal(Next(m, run[0]), run[1..]))
  }

  function Exec(m: Manager, run: seq<Event>): Manager
    requires Legal(m, run)
    decreases |run|
  {
    if run == [] then m else Exec(Next(m, run[0]), run[1..])
  }

  lemma {:induction false} LegalAppend(m: Manager, a: seq<Event>, b: seq<Event>)
    requires Legal(m, a) && Legal(Exec(m, a), b)
    ensures Legal(m, a + b) && Exec(m, a + b) == Exec(Exec(m, a), b)
    decreases |a|
  {
    if a == [] {
      assert a + b == b;
    } else {
      assert (a + b)[1..] == a[1..] + b;
      LegalAppend(Next(m, a[0]), a[1..], b);
    }
  }

  lemma {:induction false} LegalPrefix(m: Manager, a: seq<Event>, b: seq<Event>)
    requires Legal(m, a + b)
    ensures Legal(m, a) && Legal(Exec(m, a), b) && Exec(m, a + b) == Exec(Exec(m, a), b)
    decreases |a|
  {
    if a == [] {
      assert a + b == b;
    } else {
      assert (a + b)[1..] == a[1..] + b;
      LegalPrefix(Next(m, a[0]), a[1..], b);
    }
  }

  // ---------- Bookkeeping ----------

  /** No two of the nodes that are somewhere share an id. */
  predicate OnePlace(m: Manager) {
    && (forall a, b | a in m.heap && b in m.heap && a.id == b.id :: a == b)
    && DistinctIds(m.due)
    && (forall a, b | a in m.heap && b in m.due :: a.id != b.id)
    && (m.current.Some? ==>
          && (forall a | a in m.heap :: a.id != m.current.value.id)
          && (forall a | a in m.due :: a.id != m.current.value.id))
  }

  function Ids(m: Manager): set<nat> {
    (set n | n in m.heap :: n.id) + (set n | n in m.due :: n.id)
    + (if m.current.Some? then {m.current.value.id} else {})
  }

  /**
   The ids of the nodes that are somewhere are exactly the live ids and the ids marked as
   cancelled, and no id is both; so a mark never outlives its node and a node is never unmarked
   and dead.
   */
  predicate Bookkeeping(m: Manager) {
    && OnePlace(m)
    && Ids(m) == m.active + m.canceled
    && m.active !! m.canceled
    && (forall id | id in Ids(m) :: id < m.nextId)
  }

  /** What has been popped was due when it was popped. */
  predicate Punctual(m: Manager) {
    && SortedByExpiry(m.due)
    && (forall n | n in m.due :: n.expire <= m.now)
    && (m.current.Some? ==> m.current.value.expire <= m.now)
  }

  predicate Inv(m: Manager) {
    Bookkeeping(m) && Punctual(m)
  }

  lemma EveryIdIsKnown(m: Manager)
    ensures forall a | a in m.heap || a in m.due :: a.id in Ids(m)
    ensures m.current.Some? ==> m.current.value.id in Ids(m)
  {
  }

  lemma PushIds(m: Manager, n: Node)
    ensures Ids(m.(heap := m.heap + {n})) == Ids(m) + {n.id}
  {
    var heap := m.heap + {n};
    assert n in heap && forall a | a in m.heap :: a in heap;
    assert (set k | k in heap :: k.id) == (set k | k in m.heap :: k.id) + {n.id};
  }

  /** Pushing a node whose id is new to the manager. */
  lemma PushKeepsOnePlace(m: Manager, n: Node)
    requires OnePlace(m) && n.id !in Ids(m)
    ensures OnePlace(m.(heap := m.heap + {n}))
    ensures Ids(m.(heap := m.heap + {n})) == Ids(m) + {n.id}
  {
    EveryIdIsKnown(m);
    PushIds(m, n);
  }

  lemma AddKeeps(m: Manager, e: Event)
    requires Inv(m) && Enabled(m, e) && e.Add?
    ensures Inv(Next(m, e))
  {
    var n := Node(e.id, Wrap(e.t + e.delay), e.interval);
    PushKeepsOnePlace(m, n);
    assert Ids(Next(m, e)) == Ids(m.(heap := m.heap + {n}));
  }

  lemma CancelKeeps(m: Manager, e: Event)
    requires Inv(m) && Enabled(m, e) && e.Cancel?
    ensures Inv(Next(m, e))
  {
    assert Ids(Next(m, e)) == Ids(m);
  }

  lemma CleanKeeps(m: Manager, e: Event)
    requires Inv(m) && Enabled(m, e) && e.Clean?
    ensures Inv(Next(m, e))
  {
    var next := Next(m, e);
    var dropped := set n | n in m.heap && n.id in m.canceled;
    var gone := set n | n in dropped :: n.id;
    assert Ids(next) == Ids(m) - gone by {
      forall id
        ensures id in Ids(next) <==> id in Ids(m) - gone
      {
        assert forall d | d in dropped :: d in m.heap;
        if id in Ids(m) - gone && id in (set n | n in m.heap :: n.id) {
          var n :| n in m.heap && n.id == id;
          assert n !in dropped;
          assert n in next.heap;
        }
      }
    }
  }

  /** Cleaning leaves only live nodes in the heap, all of them, and no mark without a popped node. */
  lemma CleanLeavesOnlyLive(m: Manager)
    requires Inv(m)
    ensures var next := Next(m, Clean);
            && (forall n :: n in next.heap <==> n in m.heap && n.id in m.active)
            && next.active == m.active && (m.Idle() ==> next.canceled == {})
  {
    CleanKeeps(m, Clean);
    EveryIdIsKnown(m);
    var next := Next(m, Clean);
    EveryIdIsKnown(next);
    assert m.Idle() ==> forall id | id in next.canceled :: id in Ids(next);
  }

  lemma CollectKeeps(m: Manager, e: Event)
    requires Inv(m) && Enabled(m, e) && e.Collect?
    ensures Inv(Next(m, e))
  {
    var next := Next(m, e);
    var popped := set n | n in m.heap && n.expire <= e.t;
    var marked := set n | n in popped && n.id in m.canceled :: n.id;
    forall id
      ensures id in Ids(next) <==> id in Ids(m) - marked
    {
      if id in Ids(m) {
        var n :| n in m.heap && n.id == id;
        if n in popped {
          if id in m.canceled {
            assert id in marked;
            assert id !in Ids(next);
          } else {
            assert n in next.due;
            assert id !in marked;
          }
        } else {
          assert n in next.heap;
          assert id !in marked;
        }
      }
    }
    assert Ids(next) == Ids(m) - marked;
  }

  lemma TurnIds(m: Manager)
    requires OnePlace(m) && m.due != [] && m.current.None?
    ensures Ids(m) == Ids(m.(due := m.due[1..])) + {m.due[0].id}
    ensures m.due[0].id !in Ids(m.(due := m.due[1..]))
    ensures Ids(m.(due := m.due[1..], current := Some(m.due[0]))) == Ids(m)
  {
    var first, rest := m.due[0], m.due[1..];
    assert first in m.due;
    assert forall n :: n in m.due <==> n == first || n in rest;
    assert (set n | n in m.due :: n.id) == (set n | n in rest :: n.id) + {first.id};
    assert forall n | n in rest :: n.id != first.id;
  }

  lemma TurnKeeps(m: Manager, e: Event)
    requires Inv(m) && Enabled(m, e) && (e.Skip? || e.Check?)
    ensures Inv(Next(m, e))
  {
    var next := Next(m, e);
    TurnIds(m);
    assert forall n | n in m.due[1..] :: n in m.due;
    assert m.due[0] in m.due;
    if e.Skip? {
      assert Ids(next) == Ids(m.(due := m.due[1..]));
    } else {
      assert Ids(next) == Ids(m.(due := m.due[1..], current := Some(e.node)));
    }
  }

  lemma StartKeeps(m: Manager, e: Event)
    requires Inv(m) && Enabled(m, e) && e.Start?
    ensures Inv(Next(m, e))
  {
    assert Ids(Next(m, e)) == Ids(m);
  }

  lemma FinishKeeps(m: Manager, e: Event)
    requires Inv(m) && Enabled(m, e) && e.Finish?
    ensures Inv(Next(m, e))
  {
    var next := Next(m, e);
    var node := m.current.value;
    if node.id !in m.canceled && node.interval > 0 {
      assert node.(expire := Wrap(e.t + node.interval)) in next.heap;
      assert Ids(next) == Ids(m);
    } else {
      assert Ids(next) == Ids(m) - {node.id};
    }
  }

  lemma StepKeeps(m: Manager, e: Event)
    requires Inv(m) && Enabled(m, e)
    ensures Inv(Next(m, e))
  {
    match e
    case Add(_, _, _, _) => AddKeeps(m, e);
    case Cancel(_, _) => CancelKeeps(m, e);
    case Clean => CleanKeeps(m, e);
    case Collect(_, _) => CollectKeeps(m, e);
    case Skip(_) => TurnKeeps(m, e);
    case Check(_) => TurnKeeps(m, e);
    case Start(_, _) => StartKeeps(m, e);
    case Finish(_) => FinishKeeps(m, e);
  }

  /** The bookkeeping holds in every reachable state, in the middle of a pass and of a callback too. */
  lemma {:induction false} BookkeepingAlways(m: Manager, run: seq<Event>)
    requires Inv(m) && Legal(m, run)
    ensures var s := Exec(m, run);
            && Inv(s) && OnePlace(s)
            && Ids(s) == s.active + s.canceled && s.active !! s.canceled
    decreases |run|
  {
    if run != [] {
      StepKeeps(m, run[0]);
      BookkeepingAlways(Next(m, run[0]), run[1..]);
    }
  }

  // ---------- One pass over the expired timers ----------

  predicate NoCollect(run: seq<Event>) {
    forall e | e in run :: !e.Collect?
  }

  /** The nodes that got their turn, to fire or to be skipped, in order. */
  function Turns(run: seq<Event>): seq<Node> {
    if run == [] then []
    else (if run[0].Skip? || run[0].Check? then [run[0].node] else []) + Turns(run[1..])
  }

  /** The nodes that were found not cancelled at their turn. */
  function Passed(run: seq<Event>): seq<Node> {
    if run == [] then []
    else (if run[0].Check? then [run[0].node] else []) + Passed(run[1..])
  }

  /** The nodes whose callback started. */
  function Fired(run: seq<Event>): seq<Node> {
    if run == [] then []
    else (if run[0].Start? then [run[0].node] else []) + Fired(run[1..])
  }

  lemma DueAdvances(m: Manager, e: Event)
    requires Enabled(m, e) && !e.Collect?
    ensures m.due == (if e.Skip? || e.Check? then [e.node] else []) + Next(m, e).due
  {
  }

  lemma {:induction false} TurnsFollowDue(m: Manager, run: seq<Event>)
    requires Legal(m, run) && NoCollect(run)
    ensures m.due == Turns(run) + Exec(m, run).due
    decreases |run|
  {
    if run != [] {
      var turn := if run[0].Skip? || run[0].Check? then [run[0].node] else [];
      DueAdvances(m, run[0]);
      TurnsFollowDue(Next(m, run[0]), run[1..]);
      Associative(turn, Turns(run[1..]), Exec(m, run).due);
    }
  }

  lemma MarkStep(m: Manager, e: Event, node: Node)
    requires Inv(m) && Enabled(m, e) && !e.Collect? && node in Next(m, e).due
    ensures node in m.due
    ensures node.id in Next(m, e).canceled <==> node.id in m.canceled || e == Cancel(node.id, true)
  {
  }

  /** While a popped node waits for its turn, it is marked exactly when someone cancelled it. */
  lemma {:induction false} MarkedWhileDue(m: Manager, run: seq<Event>, node: Node)
    requires Inv(m) && Legal(m, run) && NoCollect(run) && node in Exec(m, run).due
    ensures node in m.due
    ensures node.id in Exec(m, run).canceled <==> node.id in m.canceled || Cancel(node.id, true) in run
    decreases |run|
  {
    hide Inv, Next;
    if run != [] {
      var e := run[0];
      StepKeeps(m, e);
      assert NoCollect(run[1..]);
      MarkedWhileDue(Next(m, e), run[1..], node);
      assert e in run && run == [e] + run[1..];
      MarkStep(m, e, node);
    }
  }

  predicate IsPass(m: Manager, run: seq<Event>) {
    run != [] && Legal(m, run) && run[0].Collect? && NoCollect(run[1..]) && Exec(m, run).Idle()
  }

  /** The state in which the `k`-th event of a run happens. */
  function Before(m: Manager, run: seq<Event>, k: nat): Manager
    requires Legal(m, run) && k <= |run|
    decreases k
  {
    if k == 0 then m else Before(Next(m, run[0]), run[1..], k - 1)
  }

  lemma {:induction false} BeforeIsExec(m: Manager, run: seq<Event>, k: nat)
    requires Legal(m, run) && k <= |run|
    ensures Legal(m, run[..k]) && Exec(m, run[..k]) == Before(m, run, k)
    ensures k < |run| ==> Enabled(Before(m, run, k), run[k])
    decreases k
  {
    if k > 0 {
      BeforeIsExec(Next(m, run[0]), run[1..], k - 1);
      assert run[..k][1..] == run[1..][..k - 1];
      assert run[..k][0] == run[0];
    }
  }

  /** At its turn, a node is skipped exactly when it was cancelled since the pass began. */
  lemma TurnDependsOnCancel(m: Manager, run: seq<Event>, k: nat)
    requires Inv(m) && IsPass(m, run) && 0 < k < |run| && (run[k].Check? || run[k].Skip?)
    ensures run[k].Skip? <==> Cancel(run[k].node.id, true) in run[..k]
  {
    var collect, rest := run[0], run[1..];
    var started := Next(m, collect);
    StepKeeps(m, collect);
    BeforeIsExec(started, rest, k - 1);
    var node, sofar := rest[k - 1].node, rest[..k - 1];
    assert run[..k] == [collect] + sofar;
    assert node in Exec(started, sofar).due;
    MarkedWhileDue(started, sofar, node);
    assert node in collect.due && node.id !in m.canceled;
  }

  lemma TurnsAreTheDue(m: Manager, run: seq<Event>)
    requires IsPass(m, run)
    ensures Turns(run) == run[0].due
  {
    TurnsFollowDue(Next(m, run[0]), run[1..]);
    assert Turns(run) == Turns(run[1..]);
  }

  function Waiting(m: Manager): seq<Node> {
    if m.Checked().Some? then [m.Checked().value] else []
  }

  lemma PassedStep(m: Manager, e: Event)
    requires Enabled(m, e)
    ensures Waiting(m) + (if e.Check? then [e.node] else [])
            == (if e.Start? then [e.node] else []) + Waiting(Next(m, e))
  {
  }

  /** What passed the check fires, in order and once, except for the one that has still to. */
  lemma {:induction false} PassedFire(m: Manager, run: seq<Event>)
    requires Legal(m, run)
    ensures Waiting(m) + Passed(run) == Fired(run) + Waiting(Exec(m, run))
    decreases |run|
  {
    hide Next, Enabled, Waiting;
    if run != [] {
      var next, end := Next(m, run[0]), Waiting(Exec(m, run));
      var check := if run[0].Check? then [run[0].node] else [];
      var start := if run[0].Start? then [run[0].node] else [];
      PassedStep(m, run[0]);
      PassedFire(next, run[1..]);
      Associative(Waiting(m), check, Passed(run[1..]));
      Associative(start, Waiting(next), Passed(run[1..]));
      Associative(start, Fired(run[1..]), end);
    }
  }

  /**
   One call of `process_expired_timers`, whatever the callbacks and other threads add or cancel
   meanwhile: the nodes that get a turn are, in order of expiry and once each, exactly those due and
   not cancelled at entry; a node is skipped exactly when its timer was cancelled earlier in the call,
   and every other one fires.
   */
  lemma PassFiresExactlyTheDue(m: Manager, run: seq<Event>)
    requires Inv(m) && IsPass(m, run)
    ensures SortedByExpiry(Turns(run)) && DistinctIds(Turns(run))
    ensures forall n :: n in Turns(run) <==> IsDueAt(m, run[0].t, n)
    ensures forall k | 0 < k < |run| && (run[k].Check? || run[k].Skip?) ::
              run[k].Skip? <==> Cancel(run[k].node.id, true) in run[..k]
    ensures Fired(run) == Passed(run)
  {
    TurnsAreTheDue(m, run);
    PassedFire(m, run);
    assert [] + Passed(run) == Passed(run) && Fired(run) + [] == Fired(run);
    forall k | 0 < k < |run| && (run[k].Check? || run[k].Skip?)
      ensures run[k].Skip? <==> Cancel(run[k].node.id, true) in run[..k]
    {
      TurnDependsOnCancel(m, run, k);
    }
  }

  lemma {:induction false} PassedAmongTurns(run: seq<Event>)
    ensures |Passed(run)| <= |Turns(run)|
    ensures forall n | n in Passed(run) :: n in Turns(run)
  {
    if run != [] {
      PassedAmongTurns(run[1..]);
    }
  }

  lemma {:induction false} DistinctCount(nodes: seq<Node>, all: set<Node>)
    requires DistinctIds(nodes) && forall n | n in nodes :: n in all
    ensures |nodes| <= |all|
    decreases |nodes|
  {
    if nodes != [] {
      var last := |nodes| - 1;
      assert forall n | n in nodes[..last] :: n != nodes[last];
      DistinctCount(nodes[..last], all - {nodes[last]});
    }
  }

  /** So a pass makes no more callbacks than there were pending timers, and fires none that is newer. */
  lemma PassIsBounded(m: Manager, run: seq<Event>)
    requires Inv(m) && IsPass(m, run)
    ensures |Fired(run)| <= |m.heap|
    ensures forall n | n in Fired(run) :: n in m.heap && n.expire <= run[0].t && n.id in m.active
  {
    PassFiresExactlyTheDue(m, run);
    PassedAmongTurns(run);
    DistinctCount(Turns(run), m.heap);
    forall n | n in Fired(run)
      ensures n.id in m.active
    {
      assert n in m.heap;
      assert n.id in Ids(m);
    }
  }

  // ---------- A plain map of timers ----------

  datatype Timer = Timer(deadline: nat, interval: nat)

  /** What a caller may think the manager is: the live timers by id. */
  datatype Plain = Plain(
    live: map<nat, Timer>,
    nextId: nat,
    turn: seq<nat>,
    current: Option<nat>,
    started: bool,
    now: nat)

  predicate PlainEnabled(p: Plain, e: Event) {
    match e
    case Add(t, delay, interval, id) => p.now <= t < TWO64 && delay < TWO64 && interval < TWO64 && id == p.nextId
    case Cancel(id, ok) => ok == (id in p.live)
    case Clean => true
    case Collect(t, due) =>
      && p.turn == [] && p.current.None? && p.now <= t < TWO64
      && SortedByExpiry(due) && DistinctIds(due)
      && (forall n | n in due :: n.id in p.live && p.live[n.id] == Timer(n.expire, n.interval) && n.expire <= t)
      && (forall id | id in p.live && p.live[id].deadline <= t :: exists k :: 0 <= k < |due| && due[k].id == id)
    case Skip(node) => p.current.None? && p.turn != [] && p.turn[0] == node.id && node.id !in p.live
    case Check(node) =>
      && p.current.None? && p.turn != [] && p.turn[0] == node.id
      && node.id in p.live && p.live[node.id] == Timer(node.expire, node.interval) && node.expire <= p.now
    case Start(node, t) => p.current == Some(node.id) && !p.started && p.now <= t < TWO64
    case Finish(t) => p.current.Some? && p.started && p.now <= t < TWO64
  }

  function PlainNext(p: Plain, e: Event): Plain
    requires PlainEnabled(p, e)
  {
    match e
    case Add(t, delay, interval, id) =>
      p.(live := p.live[id := Timer(Wrap(t + delay), interval)], nextId := id + 1, now := t)
    case Cancel(id, _) => p.(live := p.live - {id})
    case Clean => p
    case Collect(t, due) => p.(turn := seq(|due|, i requires 0 <= i < |due| => due[i].id), now := t)
    case Skip(_) => p.(turn := p.turn[1..])
    case Check(node) => p.(turn := p.turn[1..], current := Some(node.id), started := false)
    case Start(_, t) => p.(started := true, now := t)
    case Finish(t) =>
      var id := p.current.value;
      if id !in p.live then p.(current := None, started := false, now := t)
      else if p.live[id].interval > 0 then
        var timer := Timer(Wrap(t + p.live[id].interval), p.live[id].interval);
        p.(current := None, started := false, now := t, live := p.live[id := timer])
      else p.(current := None, started := false, now := t, live := p.live - {id})
  }

  /** The plain map shows the manager's live timers, and nothing of its marks or stale nodes. */
  predicate Shows(p: Plain, m: Manager) {
    && p.live.Keys == m.active
    && (forall n | n in m.heap && n.id in m.active :: p.live[n.id] == Timer(n.expire, n.interval))
    && (forall n | n in m.due && n.id in m.active :: p.live[n.id] == Timer(n.expire, n.interval))
    && (m.current.Some? && m.current.value.id in m.active ==>
          p.live[m.current.value.id] == Timer(m.current.value.expire, m.current.value.interval))
    && |p.turn| == |m.due| && (forall i | 0 <= i < |m.due| :: p.turn[i] == m.due[i].id)
    && p.current == (if m.current.Some? then Some(m.current.value.id) else None)
    && p.started == m.started && p.nextId == m.nextId && p.now == m.now
  }

  lemma CollectRefines(p: Plain, m: Manager, e: Event)
    requires Inv(m) && Shows(p, m) && Enabled(m, e) && e.Collect?
    ensures PlainEnabled(p, e) && Shows(PlainNext(p, e), Next(m, e))
  {
    forall n | n in e.due
      ensures n.id in p.live && p.live[n.id] == Timer(n.expire, n.interval)
    {
      assert n in m.heap && n.id in Ids(m);
    }
    forall id | id in p.live && p.live[id].deadline <= e.t
      ensures exists k :: 0 <= k < |e.due| && e.due[k].id == id
    {
      assert id in Ids(m);
      var n :| n in m.heap && n.id == id;
      assert IsDueAt(m, e.t, n);
      assert n in e.due;
    }
    var next := Next(m, e);
    assert next.active == m.active by {
      assert forall n | n in m.heap && n.id in m.canceled :: n.id !in m.active;
    }
  }

  lemma SkipRefines(p: Plain, m: Manager, e: Event)
    requires Inv(m) && Shows(p, m) && Enabled(m, e) && e.Skip?
    ensures PlainEnabled(p, e) && Shows(PlainNext(p, e), Next(m, e))
  {
    assert forall n | n in m.due[1..] :: n in m.due;
  }

  lemma CheckRefines(p: Plain, m: Manager, e: Event)
    requires Inv(m) && Shows(p, m) && Enabled(m, e) && e.Check?
    ensures PlainEnabled(p, e) && Shows(PlainNext(p, e), Next(m, e))
  {
    assert e.node in m.due && e.node.id in Ids(m);
    assert forall n | n in m.due[1..] :: n in m.due;
  }

  lemma FinishRefines(p: Plain, m: Manager, e: Event)
    requires Inv(m) && Shows(p, m) && Enabled(m, e) && e.Finish?
    ensures PlainEnabled(p, e) && Shows(PlainNext(p, e), Next(m, e))
  {
    assert m.current.value.id in Ids(m);
  }

  /** Lazy deletion is invisible: every step of the heap is a step of the plain map. */
  lemma StepRefines(p: Plain, m: Manager, e: Event)
    requires Inv(m) && Shows(p, m) && Enabled(m, e)
    ensures PlainEnabled(p, e) && Shows(PlainNext(p, e), Next(m, e))
  {
    match e
    case Add(_, _, _, id) =>
      assert forall n | n in m.heap || n in m.due :: n.id in Ids(m);
      assert m.current.Some? ==> m.current.value.id in Ids(m);
    case Collect(_, _) => CollectRefines(p, m, e);
    case Skip(_) => SkipRefines(p, m, e);
    case Check(_) => CheckRefines(p, m, e);
    case Finish(_) => FinishRefines(p, m, e);
    case _ =>
  }

  predicate PlainLegal(p: Plain, run: seq<Event>)
    decreases |run|
  {
    run == [] || (PlainEnabled(p, run[0]) && PlainLegal(PlainNext(p, run[0]), run[1..]))
  }

  lemma {:induction false} RunRefines(p: Plain, m: Manager, run: seq<Event>)
    requires Inv(m) && Shows(p, m) && Legal(m, run)
    ensures PlainLegal(p, run)
    decreases |run|
  {
    if run != [] {
      StepKeeps(m, run[0]);
      StepRefines(p, m, run[0]);
      RunRefines(PlainNext(p, run[0]), Next(m, run[0]), run[1..]);
    }
  }

  // ---------- Whole runs ----------

  /** The id was given out and is no longer live. */
  predicate Dead(m: Manager, id: nat) {
    id < m.nextId && id !in m.active
  }

  predicate Fires(e: Event, id: nat) {
    e.Start? && e.node.id == id
  }

  /** The timer has passed its check, and its callback has still to start. */
  predicate MayStart(m: Manager, id: nat) {
    m.Checked().Some? && m.Checked().value.id == id
  }

  lemma DeadStays(m: Manager, e: Event, id: nat)
    requires Inv(m) && Enabled(m, e) && Dead(m, id)
    ensures Dead(Next(m, e), id) && e != Cancel(id, true)
    ensures !MayStart(m, id) ==> !MayStart(Next(m, e), id) && !Fires(e, id)
    ensures e.Check? ==> e.node.id != id
  {
    if e.Check? {
      assert e.node in m.due && e.node.id in Ids(m);
    }
  }

  /** A timer that is not live never passes a check again, and cannot be cancelled again. */
  lemma {:induction false} DeadStaysDead(m: Manager, run: seq<Event>, id: nat)
    requires Inv(m) && Legal(m, run) && Dead(m, id)
    ensures forall e | e in run :: e != Cancel(id, true) && (e.Check? ==> e.node.id != id)
    decreases |run|
  {
    if run != [] {
      DeadStays(m, run[0], id);
      StepKeeps(m, run[0]);
      DeadStaysDead(Next(m, run[0]), run[1..], id);
      assert run == [run[0]] + run[1..];
    }
  }

  /** And unless it has already passed one, it never fires again. */
  lemma {:induction false} DeadNeverFires(m: Manager, run: seq<Event>, id: nat)
    requires Inv(m) && Legal(m, run) && Dead(m, id) && !MayStart(m, id)
    ensures forall e | e in run :: !Fires(e, id)
    decreases |run|
  {
    if run != [] {
      DeadStays(m, run[0], id);
      StepKeeps(m, run[0]);
      DeadNeverFires(Next(m, run[0]), run[1..], id);
      assert run == [run[0]] + run[1..];
    }
  }

  /** The events after the `j`-th one, and the state they start from. */
  lemma After(m: Manager, run: seq<Event>, j: nat)
    requires Inv(m) && Legal(m, run) && j < |run|
    ensures Legal(m, run[..j]) && Inv(Exec(m, run[..j])) && Enabled(Exec(m, run[..j]), run[j])
    ensures var s := Next(Exec(m, run[..j]), run[j]); Inv(s) && Legal(s, run[j + 1..])
  {
    assert run == run[..j] + run[j..];
    LegalPrefix(m, run[..j], run[j..]);
    BookkeepingAlways(m, run[..j]);
    StepKeeps(Exec(m, run[..j]), run[j]);
    assert run[j..][1..] == run[j + 1..];
  }

  // ---------- Cancelling ----------

  predicate NoStart(run: seq<Event>) {
    forall e | e in run :: !e.Start?
  }

  /** A node that waits to start was checked, and nothing has started since. */
  lemma {:induction false} WaitingWasChecked(m: Manager, run: seq<Event>) returns (c: nat)
    requires Legal(m, run) && m.Checked().None? && Exec(m, run).Checked().Some?
    ensures c < |run| && run[c] == Check(Exec(m, run).Checked().value) && NoStart(run[c + 1..])
    decreases |run|
  {
    var last := |run| - 1;
    assert run == run[..last] + [run[last]];
    LegalPrefix(m, run[..last], [run[last]]);
    var before := Exec(m, run[..last]);
    assert [run[last]][1..] == [];
    if run[last].Check? {
      c := last;
    } else {
      c := WaitingWasChecked(m, run[..last]);
      assert run[c + 1..] == run[..last][c + 1..] + [run[last]];
    }
  }

  /** A checked node waits until something starts. */
  lemma {:induction false} CheckedWaits(m: Manager, run: seq<Event>)
    requires Legal(m, run) && m.Checked().Some? && NoStart(run)
    ensures Exec(m, run).Checked() == m.Checked()
    decreases |run|
  {
    if run != [] {
      assert run[0] in run;
      assert forall e | e in run[1..] :: e in run;
      CheckedWaits(Next(m, run[0]), run[1..]);
    }
  }

  /** The check of timer `id` comes before position `j`, and no callback starts from there up to `k`. */
  ghost predicate CheckedBefore(run: seq<Event>, id: nat, j: nat, k: nat)
    requires j < k < |run|
  {
    exists c :: 0 <= c < j && run[c].Check? && run[c].node.id == id && NoStart(run[c + 1..k])
  }

  /** A start comes after its own check, which is the last one before it. */
  lemma StartFollowsItsCheck(m: Manager, run: seq<Event>, c: nat, k: nat)
    requires Inv(m) && Legal(m, run) && c < k < |run| && run[k].Start?
    requires run[c].Check? && NoStart(run[c + 1..k])
    ensures run[k].node == run[c].node
  {
    hide Inv, Next;
    After(m, run, c);
    var s, rest := Next(Exec(m, run[..c]), run[c]), run[c + 1..];
    After(s, rest, k - c - 1);
    assert rest[..k - c - 1] == run[c + 1..k];
    CheckSets(Exec(m, run[..c]), run[c]);
    CheckedWaits(s, rest[..k - c - 1]);
  }

  lemma CheckSets(m: Manager, e: Event)
    requires Enabled(m, e) && e.Check?
    ensures Next(m, e).Checked() == Some(e.node)
  {
  }

  /**
   After a cancel that returned true, a callback of the timer starts exactly when the cancel fell
   between the timer's check and the callback's start.
   */
  lemma CanceledTimerStartsIffChecked(m: Manager, run: seq<Event>, j: nat, k: nat)
    requires Inv(m) && m.Checked().None? && Legal(m, run) && j < k < |run|
    requires run[j].Cancel? && run[j].ok && run[k].Start?
    ensures Fires(run[k], run[j].id) <==> CheckedBefore(run, run[j].id, j, k)
  {
    var id := run[j].id;
    if CheckedBefore(run, id, j, k) {
      var c :| 0 <= c < j && run[c].Check? && run[c].node.id == id && NoStart(run[c + 1..k]);
      StartFollowsItsCheck(m, run, c, k);
    }
    if Fires(run[k], id) {
      After(m, run, k);
      var c := WaitingWasChecked(m, run[..k]);
      assert run[..k][c + 1..] == run[c + 1..k];
      After(m, run, j);
      EveryIdIsKnown(Exec(m, run[..j]));
      assert id in Ids(Exec(m, run[..j]));
      DeadStaysDead(Next(Exec(m, run[..j]), run[j]), run[j + 1..], id);
      assert c > j ==> run[c] in run[j + 1..];
      assert c != j;
    }
  }

  /** The interleaving exists: a cancel returns true, and the callback starts nevertheless. */
  lemma CancelCanComeTooLate(t: nat)
    requires t < TWO64
    ensures var node := Node(1, t, 0);
            Legal(NEW, [Add(t, 0, 0, 1), Collect(t, [node]), Check(node), Cancel(1, true), Start(node, t)])
  {
    var node := Node(1, t, 0);
    var run := [Add(t, 0, 0, 1), Collect(t, [node]), Check(node), Cancel(1, true), Start(node, t)];
    var added := Next(NEW, run[0]);
    assert added.heap == {node};
    assert Enabled(added, run[1]);
    var collected := Next(added, run[1]);
    assert collected.canceled == {} && collected.active == {1};
    var checked := Next(collected, run[2]);
    var canceled := Next(checked, run[3]);
    assert run[4..] == [Start(node, t)] && run[4..][1..] == [];
    assert run[3..][1..] == run[4..] && run[2..][1..] == run[3..] && run[1..][1..] == run[2..];
    assert Legal(canceled, run[4..]);
    assert Legal(checked, run[3..]);
    assert Legal(collected, run[2..]);
    assert Legal(added, run[1..]);
  }

  /** As when one thread does everything: a callback starts right after its check. */
  predicate StartsAtOnce(run: seq<Event>) {
    forall c | 0 <= c < |run| - 1 && run[c].Check? :: run[c + 1].Start?
  }

  /** With one thread no callback starts after a cancel that returned true. */
  lemma CanceledNeverFires(m: Manager, run: seq<Event>, j: nat, k: nat)
    requires Inv(m) && m.Checked().None? && Legal(m, run) && j < k < |run|
    requires run[j].Cancel? && run[j].ok && StartsAtOnce(run)
    ensures !Fires(run[k], run[j].id)
  {
    forall c | 0 <= c < j && run[c].Check?
      ensures !NoStart(run[c + 1..k])
    {
      assert run[c + 1..k][0] == run[c + 1];
      assert run[c + 1] in run[c + 1..k];
    }
    if run[k].Start? {
      CanceledTimerStartsIffChecked(m, run, j, k);
    }
  }

  /** With any number of threads a timer is cancelled at most once. */
  lemma CanceledOnce(m: Manager, run: seq<Event>, j: nat, k: nat)
    requires Inv(m) && Legal(m, run) && j < k < |run|
    requires run[j].Cancel? && run[j].ok
    ensures run[k] != Cancel(run[j].id, true)
  {
    After(m, run, j);
    assert run[j].id in Ids(Exec(m, run[..j]));
    DeadStaysDead(Next(Exec(m, run[..j]), run[j]), run[j + 1..], run[j].id);
    assert run[k] in run[j + 1..];
  }

  // ---------- Firing ----------

  lemma {:induction false} OneShotDoneFiring(m: Manager, run: seq<Event>)
    requires Inv(m) && Legal(m, run) && m.current.Some? && m.started && m.current.value.interval == 0
    ensures forall e | e in run :: !Fires(e, m.current.value.id)
    decreases |run|
  {
    if run != [] {
      var e, id := run[0], m.current.value.id;
      StepKeeps(m, e);
      if e.Finish? {
        assert id in Ids(m);
        DeadNeverFires(Next(m, e), run[1..], id);
      } else {
        OneShotDoneFiring(Next(m, e), run[1..]);
      }
      assert run == [e] + run[1..];
    }
  }

  lemma OneShotFiresOnce(m: Manager, run: seq<Event>, j: nat, k: nat)
    requires Inv(m) && Legal(m, run) && j < k < |run|
    requires run[j].Start? && run[j].node.interval == 0
    ensures !Fires(run[k], run[j].node.id)
  {
    After(m, run, j);
    OneShotDoneFiring(Next(Exec(m, run[..j]), run[j]), run[j + 1..]);
    assert run[k] in run[j + 1..];
  }

  /** No callback starts before its node expires. */
  lemma FiresOnTime(m: Manager, run: seq<Event>, k: nat)
    requires Inv(m) && Legal(m, run) && k < |run| && run[k].Start?
    ensures run[k].node.expire <= run[k].t
  {
    After(m, run, k);
  }

  /**
   Wherever timer `id` still is, it has this interval, and as long as time `t` has not come it expires
   no earlier than that.
   */
  predicate NotBefore(m: Manager, id: nat, interval: nat, t: nat) {
    && id < m.nextId
    && (forall n | n in m.heap && n.id == id :: NodeNotBefore(m, n, interval, t))
    && (forall n | n in m.due && n.id == id :: NodeNotBefore(m, n, interval, t))
    && (m.current.Some? && m.current.value.id == id ==> NodeNotBefore(m, m.current.value, interval, t))
  }

  predicate NodeNotBefore(m: Manager, n: Node, interval: nat, t: nat) {
    n.interval == interval && (n.expire >= t || m.now >= t)
  }

  lemma {:induction false} NotBeforeStays(m: Manager, run: seq<Event>, id: nat, interval: nat, t: nat)
    requires Inv(m) && Legal(m, run) && NotBefore(m, id, interval, t)
    ensures forall e | e in run && Fires(e, id) :: e.node.interval == interval && e.t >= t
    decreases |run|
  {
    if run != [] {
      var e := run[0];
      StepKeeps(m, e);
      NotBeforeStep(m, e, id, interval, t);
      NotBeforeStays(Next(m, e), run[1..], id, interval, t);
      assert run == [e] + run[1..];
    }
  }

  /** A node is re-armed after its callback started, so only once time `t` has come. */
  lemma NotBeforeStep(m: Manager, e: Event, id: nat, interval: nat, t: nat)
    requires Inv(m) && Enabled(m, e) && NotBefore(m, id, interval, t)
    ensures NotBefore(Next(m, e), id, interval, t)
    ensures Fires(e, id) ==> e.node.interval == interval && e.t >= t
  {
    if e.Check? || e.Skip? {
      assert e.node in m.due;
      assert forall n | n in m.due[1..] :: n in m.due;
    }
  }

  lemma AddedNotBefore(m: Manager, e: Event)
    requires Inv(m) && Enabled(m, e) && e.Add? && e.t + e.delay < TWO64
    ensures NotBefore(Next(m, e), e.id, e.interval, e.t + e.delay)
  {
    EveryIdIsKnown(m);
  }

  /** A timer fires no earlier than the delay it was added with asks for. */
  lemma FiresNoEarlierThanAsked(m: Manager, run: seq<Event>, j: nat, k: nat)
    requires Inv(m) && Legal(m, run) && j < k < |run|
    requires run[j].Add? && Fires(run[k], run[j].id) && run[j].t + run[j].delay < TWO64
    ensures run[k].t >= run[j].t + run[j].delay && run[k].node.interval == run[j].interval
  {
    After(m, run, j);
    var at, e := Exec(m, run[..j]), run[j];
    AddedNotBefore(at, e);
    NotBeforeStays(Next(at, e), run[j + 1..], e.id, e.interval, e.t + e.delay);
    assert run[k] in run[j + 1..];
  }

  /** The first callback that ends in the run ends where adding `interval` to the clock does not wrap. */
  predicate FirstFinishUnwrapped(run: seq<Event>, interval: nat)
    decreases |run|
  {
    run != [] ==> if run[0].Finish? then run[0].t + interval < TWO64 else FirstFinishUnwrapped(run[1..], interval)
  }

  lemma {:induction false} RearmedLater(m: Manager, run: seq<Event>, t: nat)
    requires Inv(m) && Legal(m, run) && m.current.Some? && m.started && m.now >= t
    requires m.current.value.interval > 0 && FirstFinishUnwrapped(run, m.current.value.interval)
    ensures forall e | e in run && Fires(e, m.current.value.id) ::
              e.node.interval == m.current.value.interval && e.t >= t + m.current.value.interval
    decreases |run|
  {
    if run != [] {
      var e, node := run[0], m.current.value;
      StepKeeps(m, e);
      if e.Finish? {
        var next := Next(m, e);
        assert node.id in Ids(m);
        if node.id in m.canceled {
          DeadNeverFires(next, run[1..], node.id);
        } else {
          NotBeforeStays(next, run[1..], node.id, node.interval, t + node.interval);
        }
      } else {
        RearmedLater(Next(m, e), run[1..], t);
      }
      assert run == [e] + run[1..];
    }
  }

  /** Two firings of a periodic timer start at least its interval apart, unless re-arming it between them wraps. */
  lemma PeriodicFiringsAreSpaced(m: Manager, run: seq<Event>, j: nat, k: nat)
    requires Inv(m) && Legal(m, run) && j < k < |run|
    requires run[j].Start? && Fires(run[k], run[j].node.id)
    requires FirstFinishUnwrapped(run[j + 1..], run[j].node.interval)
    ensures run[k].node.interval == run[j].node.interval > 0
    ensures run[k].t >= run[j].t + run[j].node.interval
  {
    if run[j].node.interval == 0 {
      OneShotFiresOnce(m, run, j, k);
    }
    After(m, run, j);
    var s := Next(Exec(m, run[..j]), run[j]);
    RearmedLater(s, run[j + 1..], run[j].t);
    assert run[k] in run[j + 1..];
  }

  /**
   The proviso on wrap-around is exact: a delay that takes the clock past 2^64 makes a timer that
   can fire at once, long before it was asked to.
   */
  lemma WrappedDelayFiresAtOnce(t: nat, delay: nat)
    requires t < TWO64 && delay < TWO64
    ensures var node := Node(1, Wrap(t + delay), 0);
            var run := [Add(t, delay, 0, 1), Collect(t, [node]), Check(node), Start(node, t)];
            Legal(NEW, run) && delay > 0 <==> t + delay >= TWO64
  {
    var node := Node(1, Wrap(t + delay), 0);
    var run := [Add(t, delay, 0, 1), Collect(t, [node]), Check(node), Start(node, t)];
    var added := Next(NEW, run[0]);
    assert run[1..][1..] == run[2..] && run[2..][1..] == run[3..] && run[3..][1..] == [];
    assert added.heap == {node};
    if t + delay >= TWO64 {
      assert Wrap(t + delay) == t + delay - TWO64;
      assert IsDueAt(added, t, node);
      assert Enabled(added, run[1]);
      var collected := Next(added, run[1]);
      assert Legal(Next(collected, run[2]), run[3..]);
      assert Legal(collected, run[2..]);
    } else if delay > 0 {
      assert !IsDueAt(added, t, node);
      assert node in [node];
    }
  }

  lemma LegalFrom(m: Manager, e: Event, rest: seq<Event>)
    requires Enabled(m, e) && Legal(Next(m, e), rest)
    ensures Legal(m, [e] + rest) && Exec(m, [e] + rest) == Exec(Next(m, e), rest)
  {
    assert ([e] + rest)[1..] == rest;
  }

  /** The state once a timer added at `t` without delay has fired, and been re-armed at once. */
  lemma FiredAndRearmed(t: nat, interval: nat)
    requires t < TWO64 && 0 < interval < TWO64
    ensures var n, r := Node(1, t, interval), Node(1, Wrap(t + interval), interval);
            var run := [Add(t, 0, interval, 1), Collect(t, [n]), Check(n), Start(n, t), Finish(t)];
            Legal(NEW, run) && Exec(NEW, run) == Manager({r}, {1}, {}, 2, [], None, false, t)
  {
    hide Legal, Exec;
    var n, r := Node(1, t, interval), Node(1, Wrap(t + interval), interval);
    TurnOfOne(n, t);
    AddedAndCollected(t, interval);
    LegalAppend(NEW, [Add(t, 0, interval, 1), Collect(t, [n])], [Check(n), Start(n, t), Finish(t)]);
    assert [Add(t, 0, interval, 1), Collect(t, [n])] + [Check(n), Start(n, t), Finish(t)]
        == [Add(t, 0, interval, 1), Collect(t, [n]), Check(n), Start(n, t), Finish(t)];
  }

  lemma AddedAndCollected(t: nat, interval: nat)
    requires t < TWO64 && interval < TWO64
    ensures var n := Node(1, t, interval);
            var run := [Add(t, 0, interval, 1), Collect(t, [n])];
            Legal(NEW, run) && Exec(NEW, run) == Manager({}, {1}, {}, 2, [n], None, false, t)
  {
    var n := Node(1, t, interval);
    var add, collect := Add(t, 0, interval, 1), Collect(t, [n]);
    var added := Manager({n}, {1}, {}, 2, [], None, false, t);
    var collected := Manager({}, {1}, {}, 2, [n], None, false, t);
    assert Wrap(t) == t;
    assert Enabled(NEW, add) && Next(NEW, add) == added;
    assert Enabled(added, collect) && Next(added, collect) == collected;
    LegalFrom(added, collect, []);
    LegalFrom(NEW, add, [collect] + []);
    assert [add] + ([collect] + []) == [add, collect];
  }

  /** The turn of the only timer there is, when nothing comes between. */
  lemma TurnOfOne(n: Node, t: nat)
    requires t < TWO64 && 0 < n.interval && n.id == 1
    ensures var m := Manager({}, {1}, {}, 2, [n], None, false, t);
            var turn := [Check(n), Start(n, t), Finish(t)];
            var r := n.(expire := Wrap(t + n.interval));
            Legal(m, turn) && Exec(m, turn) == Manager({r}, {1}, {}, 2, [], None, false, t)
  {
    hide Legal, Exec;
    var collected := Manager({}, {1}, {}, 2, [n], None, false, t);
    var checked := Manager({}, {1}, {}, 2, [], Some(n), false, t);
    var started := checked.(started := true);
    var rearmed := Manager({n.(expire := Wrap(t + n.interval))}, {1}, {}, 2, [], None, false, t);
    NoEvents(rearmed);
    assert Enabled(started, Finish(t)) && Next(started, Finish(t)) == rearmed;
    LegalFrom(started, Finish(t), []);
    assert Enabled(checked, Start(n, t)) && Next(checked, Start(n, t)) == started;
    LegalFrom(checked, Start(n, t), [Finish(t)] + []);
    assert Enabled(collected, Check(n)) && Next(collected, Check(n)) == checked;
    LegalFrom(collected, Check(n), [Start(n, t)] + ([Finish(t)] + []));
    assert [Check(n)] + ([Start(n, t)] + ([Finish(t)] + [])) == [Check(n), Start(n, t), Finish(t)];
  }

  lemma NoEvents(m: Manager)
    ensures Legal(m, []) && Exec(m, []) == m
  {
  }

  /**
   This proviso is exact too: a periodic timer can fire twice at the same moment exactly when adding
   its interval to the clock wraps.
   */
  lemma WrappedIntervalFiresAgain(t: nat, interval: nat)
    requires t < TWO64 && 0 < interval < TWO64
    ensures var n, r := Node(1, t, interval), Node(1, Wrap(t + interval), interval);
            var once := [Add(t, 0, interval, 1), Collect(t, [n]), Check(n), Start(n, t), Finish(t)];
            var again := [Collect(t, [r]), Check(r), Start(r, t)];
            Legal(NEW, once + again) <==> t + interval >= TWO64
  {
    var n, r := Node(1, t, interval), Node(1, Wrap(t + interval), interval);
    var once := [Add(t, 0, interval, 1), Collect(t, [n]), Check(n), Start(n, t), Finish(t)];
    var again := [Collect(t, [r]), Check(r), Start(r, t)];
    var rearmed := Manager({r}, {1}, {}, 2, [], None, false, t);
    var collected := Manager({}, {1}, {}, 2, [r], None, false, t);
    FiredAndRearmed(t, interval);
    assert r in [r];
    assert Enabled(rearmed, again[0]) <==> Wrap(t + interval) <= t;
    assert Enabled(rearmed, again[0]) ==> Next(rearmed, again[0]) == collected;
    assert again[1..][1..] == again[2..] && again[2..][1..] == [];
    assert Legal(collected, again[1..]);
    if Legal(NEW, once + again) {
      LegalPrefix(NEW, once, again);
    }
    if Legal(rearmed, again) {
      LegalAppend(NEW, once, again);
    }
  }
}
