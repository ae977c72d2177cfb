/** The timer manager as an object; each method is shown to take steps of the machine in `Timers`. */
module TimerManagers {
  import opened Text
  import opened Timers

  /** What a callback may do with the manager. */
  datatype Op = AddOp(delay: nat, interval: nat) | CancelOp(id: nat) | CleanOp {
    predicate Valid() {
      AddOp? ==> delay < TWO64 && interval < TWO64
    }
  }

  predicate IsTop(heap: set<Node>, n: Node) {
    n in heap && forall k | k in heap :: n.expire <= k.expire
  }

  lemma {:induction false} TopExists(heap: set<Node>)
    requires heap != {}
    ensures exists n :: IsTop(heap, n)
  {
    var n :| n in heap;
    if heap != {n} {
      var rest := heap - {n};
      assert heap == {n} + rest;
      TopExists(rest);
      var top :| IsTop(rest, top);
      assert IsTop(heap, if n.expire <= top.expire then n else top);
    } else {
      assert IsTop(heap, n);
    }
  }

  const TWO63: nat := 0x8000_0000_0000_0000

  /** A 64-bit number of milliseconds read as a signed one. */
  function ToInt64(ms: nat): int {
    if ms < TWO63 then ms else ms - TWO64
  }

  class TimerManager {
    // The priority queue: it only ever gives out a node that no other node expires before.
    var heap: set<Node>
    var activeIds: set<nat>
    var canceledMap: map<nat, bool>
    var nextId: nat
    // The latest reading of the steady clock.
    var clock: nat
    // The popped nodes still waiting for their turn, and the one whose callback executes.
    ghost var due: seq<Node>
    ghost var current: Option<Node>
    ghost var started: bool

    ghost function State(): Manager
      reads this
    {
      Manager(heap, activeIds, canceledMap.Keys, nextId, due, current, started, clock)
    }

    ghost predicate Valid()
      reads this
    {
      Inv(State()) && clock < TWO64
    }

    constructor ()
      ensures State() == NEW && Valid()
    {
      heap, activeIds, canceledMap, nextId, clock := {}, {}, map[], 1, 0;
      due, current, started := [], None, false;
    }

    method ReadClock() returns (t: nat)
      requires clock < TWO64
      ensures clock <= t < TWO64
    {
      t :| clock <= t < TWO64;
    }

    method Top() returns (n: Node)
      requires heap != {}
      ensures IsTop(heap, n)
    {
      TopExists(heap);
      n :| IsTop(heap, n);
    }

    /** Whether a node that expires then would be the first to. */
    method WouldBeFirst(expire: nat) returns (first: bool)
      ensures first <==> forall n | n in heap :: expire < n.expire
    {
      if heap == {} {
        return true;
      }
      var top := Top();
      first := expire < top.expire;
    }

    /** Adds a timer; the caller must wake the reactor when nothing in the heap expires sooner. */
    method AddTimer(delay: nat, interval: nat) returns (id: nat, needWake: bool, ghost e: Event)
      requires Valid() && delay < TWO64 && interval < TWO64
      modifies this
      ensures Valid()
      ensures e == Add(clock, delay, interval, id)
      ensures Enabled(old(State()), e) && State() == Next(old(State()), e)
      ensures needWake <==> forall n | n in old(heap) :: Wrap(clock + delay) < n.expire
    {
      hide Inv;
      var t := ReadClock();
      e := Add(t, delay, interval, nextId);
      StepKeeps(State(), e);
      id := nextId;
      var node := Node(id, Wrap(t + delay), interval);
      needWake := WouldBeFirst(node.expire);
      nextId := nextId + 1;
      activeIds := activeIds + {id};
      heap := heap + {node};
      clock := t;
    }

    /**
     Milliseconds until the first node expires: -1 without nodes, 0 when it already has. The result is
     signed, so it is negative too when the node is 2^63 milliseconds away or more.
     */
    method GetNextTimeout() returns (timeout: int, now: nat)
      requires clock < TWO64
      ensures clock <= now < TWO64
      ensures heap == {} ==> timeout == -1
      ensures forall n | IsTop(heap, n) :: timeout == ToInt64(if n.expire <= now then 0 else n.expire - now)
      ensures heap != {} ==> (timeout < 0 <==> forall n | n in heap :: n.expire >= now + TWO63)
    {
      now := ReadClock();
      if heap == {} {
        return -1, now;
      }
      var top := Top();
      timeout := if top.expire <= now then 0 else ToInt64(top.expire - now);
    }

    method CancelTimer(id: nat) returns (ok: bool)
      requires Valid()
      modifies this
      ensures Valid()
      ensures Enabled(old(State()), Cancel(id, ok)) && State() == Next(old(State()), Cancel(id, ok))
    {
      StepKeeps(State(), Cancel(id, id in activeIds));
      if id !in activeIds {
        return false;
      }
      activeIds := activeIds - {id};
      canceledMap := canceledMap[id := true];
      ok := true;
    }

    method CleanCanceledTimers()
      requires Valid()
      modifies this
      ensures Valid()
      ensures State() == Next(old(State()), Clean)
    {
      ghost var start := State();
      StepKeeps(start, Clean);
      var temp: set<Node> := {};
      while heap != {}
        invariant Swept(start, heap, temp, canceledMap.Keys)
        invariant State() == start.(heap := heap, canceled := canceledMap.Keys)
        decreases heap
      {
        var node := Top();
        SweepOne(start, heap, temp, canceledMap.Keys, node);
        heap := heap - {node};
        if node.id !in canceledMap {
          temp := temp + {node};
        } else {
          canceledMap := canceledMap - {node.id};
        }
      }
      heap := temp;
      SweptAll(start, temp, canceledMap.Keys);
    }

    method RunOp(op: Op) returns (ghost e: Event)
      requires Valid() && op.Valid()
      modifies this
      ensures Valid() && due == old(due) && current == old(current) && started == old(started)
      ensures e.Add? || e.Cancel? || e.Clean?
      ensures Enabled(old(State()), e) && State() == Next(old(State()), e)
    {
      match op
      case AddOp(delay, interval) =>
        var _, _, added := AddTimer(delay, interval);
        e := added;
      case CancelOp(id) =>
        var ok := CancelTimer(id);
        e := Cancel(id, ok);
      case CleanOp =>
        CleanCanceledTimers();
        e := Clean;
    }

    /** The callback's calls into the manager, in order. */
    method RunCallback(ops: seq<Op>) returns (ghost run: seq<Event>)
      requires Valid() && forall op | op in ops :: op.Valid()
      modifies this
      ensures Valid()
      ensures Legal(old(State()), run) && Exec(old(State()), run) == State()
      ensures OnlyCalls(run) && due == old(due) && current == old(current) && started == old(started)
    {
      run := [];
      ghost var start := State();
      for i := 0 to |ops|
        invariant Valid()
        invariant Legal(start, run) && Exec(start, run) == State()
        invariant OnlyCalls(run) && due == old(due) && current == old(current) && started == old(started)
      {
        assert ops[i] in ops;
        ghost var e := RunOp(ops[i]);
        Extend(start, run, e);
        run := run + [e];
      }
    }

    /** Takes one expired node out of the heap: it is dropped with its mark, or joins the due list. */
    method PopOne(node: Node, popped: seq<Node>) returns (longer: seq<Node>)
      requires OnePlace(State()) && IsTop(heap, node)
      modifies this`heap, this`canceledMap, this`activeIds
      ensures heap == old(heap) - {node}
      ensures if node.id in old(canceledMap) then
                && longer == popped
                && canceledMap.Keys == old(canceledMap.Keys) - {node.id} && activeIds == old(activeIds) - {node.id}
              else
                longer == popped + [node] && canceledMap == old(canceledMap) && activeIds == old(activeIds)
    {
      heap := heap - {node};
      longer := popped;
      if node.id in canceledMap {
        canceledMap := canceledMap - {node.id};
        activeIds := activeIds - {node.id};
      } else {
        longer := popped + [node];
      }
    }

    /** Pops every node that has expired by `now`. */
    method PopExpired(now: nat) returns (popped: seq<Node>)
      requires OnePlace(State())
      modifies this`heap, this`canceledMap, this`activeIds
      ensures heap <= old(heap) && forall n | n in old(heap) :: n in heap <==> n.expire > now
      ensures PoppedFrom(old(State()), State(), popped)
    {
      hide PoppedFrom;
      popped := [];
      ghost var start := State();
      PoppedNothing(start);
      while heap != {}
        invariant heap <= start.heap
        invariant start == State().(heap := start.heap, active := start.active, canceled := start.canceled)
        invariant forall n | n in start.heap && n !in heap :: n.expire <= now
        invariant PoppedFrom(start, State(), popped)
        decreases heap
      {
        var node := Top();
        if node.expire > now {
          break;
        }
        ghost var before, sofar := State(), popped;
        popped := PopOne(node, popped);
        PopKeeps(start, before, sofar, node, State(), popped);
      }
    }

    /** Pops what is due under one lock, and remembers it as the due list. */
    method CollectDue() returns (popped: seq<Node>)
      requires Valid() && State().Idle()
      modifies this
      ensures Valid() && due == popped && current.None?
      ensures Enabled(old(State()), Collect(clock, popped)) && State() == Next(old(State()), Collect(clock, popped))
    {
      var now := ReadClock();
      popped := PopExpired(now);
      ghost var rest := State();
      clock := now;
      due := popped;
      ghost var m := old(State());
      assert PoppedFrom(m, State(), popped) by {
        assert forall id :: LeftUnder(m, State(), id) <==> LeftUnder(m, rest, id);
      }
      CollectIs(m, now, popped, State());
      StepKeeps(m, Collect(now, popped));
    }

    /** What follows a callback: the timer is armed again, or dropped. */
    method FinishTurn(node: Node) returns (ghost finish: Event)
      requires Valid() && current == Some(node) && started
      modifies this
      ensures Valid() && current.None? && due == old(due)
      ensures finish.Finish? && Enabled(old(State()), finish) && State() == Next(old(State()), finish)
    {
      hide Inv;
      var t := ReadClock();
      finish := Finish(t);
      StepKeeps(State(), finish);
      current, started, clock := None, false, t;
      if node.id in canceledMap {
        canceledMap := canceledMap - {node.id};
        activeIds := activeIds - {node.id};
      } else if node.interval > 0 {
        heap := heap + {node.(expire := Wrap(t + node.interval))};
      } else {
        activeIds := activeIds - {node.id};
      }
    }

    /** The locked check: is the node still wanted? */
    method CheckTurn(node: Node) returns (wanted: bool, ghost e: Event)
      requires Valid() && current.None? && due != [] && due[0] == node
      modifies this
      ensures Valid() && due == old(due)[1..] && clock == old(clock)
      ensures e == if wanted then Check(node) else Skip(node)
      ensures Enabled(old(State()), e) && State() == Next(old(State()), e)
    {
      hide Inv;
      wanted := node.id !in canceledMap;
      e := if wanted then Check(node) else Skip(node);
      StepKeeps(State(), e);
      due := due[1..];
      if wanted {
        current, started := Some(node), false;
      } else {
        canceledMap := canceledMap - {node.id};
        activeIds := activeIds - {node.id};
      }
    }

    method StartCallback(node: Node) returns (ghost e: Event)
      requires Valid() && State().Checked() == Some(node)
      modifies this
      ensures Valid() && current == Some(node) && started && due == old(due)
      ensures e == Start(node, clock) && Enabled(old(State()), e) && State() == Next(old(State()), e)
    {
      hide Inv;
      var t := ReadClock();
      e := Start(node, t);
      StepKeeps(State(), e);
      clock, started := t, true;
    }

    /** The turn of one popped node: its callback runs unless the timer was cancelled meanwhile. */
    method TakeTurn(node: Node, ops: seq<Op>) returns (fired: bool, ghost run: seq<Event>)
      requires Valid() && current.None? && due != [] && due[0] == node
      requires forall op | op in ops :: op.Valid()
      modifies this
      ensures Valid() && current.None? && due == old(due)[1..]
      ensures Legal(old(State()), run) && Exec(old(State()), run) == State() && IsTurn(run)
      ensures Fired(run) == if fired then [node] else []
    {
      ghost var check;
      fired, check := CheckTurn(node);
      if !fired {
        run := [check];
        Extend(old(State()), [], check);
      } else {
        ghost var start := StartCallback(node);
        ghost var calls := RunCallback(ops);
        ghost var finish := FinishTurn(node);
        run := TurnRun(old(State()), check, start, calls, finish);
      }
    }

    /** Handles every expired timer; `script(k)` is what the k-th callback does. */
    method ProcessExpiredTimers(script: nat -> seq<Op>) returns (fired: seq<Node>, ghost run: seq<Event>)
      requires Valid() && State().Idle()
      requires forall k, op | op in script(k) :: op.Valid()
      modifies this
      ensures Valid()
      ensures IsPass(old(State()), run) && Exec(old(State()), run) == State() && StartsAtOnce(run)
      ensures fired == Fired(run)
    {
      var popped := CollectDue();
      ghost var start := old(State());
      run := [Collect(clock, popped)];
      Extend(start, [], run[0]);
      assert [] + [run[0]] == run && run[1..] == [];
      assert IsPassSoFar(run) && Fired(run) == [];
      hide Settled, StartsAtOnce, NoCollect, Fired;
      fired := [];
      for i := 0 to |popped|
        invariant Valid() && current.None? && due == popped[i..]
        invariant Legal(start, run) && Exec(start, run) == State()
        invariant IsPassSoFar(run)
        invariant fired == Fired(run)
      {
        var didFire;
        ghost var turn;
        didFire, turn := TakeTurn(popped[i], script(|fired|));
        AppendTurn(start, run, turn);
        run := run + turn;
        if didFire {
          fired := fired + [popped[i]];
        }
      }
    }
  }

  /** What a callback's calls into the manager are. */
  predicate OnlyCalls(run: seq<Event>) {
    forall e | e in run :: e.Add? || e.Cancel? || e.Clean?
  }

  /** Every check in the run has been followed by its start. */
  predicate Settled(run: seq<Event>) {
    StartsAtOnce(run) && (run != [] ==> !run[|run| - 1].Check?)
  }

  /** A collect, and turns behind it. */
  predicate IsPassSoFar(run: seq<Event>) {
    run != [] && run[0].Collect? && NoCollect(run[1..]) && Settled(run)
  }

  /** The events of one turn. */
  predicate IsTurn(run: seq<Event>) {
    run != [] && NoCollect(run) && Settled(run)
  }

  /** The heap of `start` has been emptied down to `heap`; the nodes kept are `kept`, the marks left `marks`. */
  predicate Swept(start: Manager, heap: set<Node>, kept: set<Node>, marks: set<nat>) {
    && heap <= start.heap && kept <= start.heap - heap
    && (forall n | n in start.heap - heap :: n in kept <==> n.id !in start.canceled)
    && marks == start.canceled - (set n | n in start.heap - heap :: n.id)
  }

  lemma SweepOne(start: Manager, heap: set<Node>, kept: set<Node>, marks: set<nat>, node: Node)
    requires OnePlace(start) && Swept(start, heap, kept, marks) && node in heap
    ensures if node.id !in marks then Swept(start, heap - {node}, kept + {node}, marks)
            else Swept(start, heap - {node}, kept, marks - {node.id})
  {
    assert forall n | n in start.heap && n != node :: n.id != node.id;
    assert start.heap - (heap - {node}) == (start.heap - heap) + {node};
    assert node in start.heap - (heap - {node});
    assert (set n | n in start.heap - (heap - {node}) :: n.id) == (set n | n in start.heap - heap :: n.id) + {node.id};
    assert node.id in marks <==> node.id in start.canceled;
  }

  lemma SweptAll(start: Manager, kept: set<Node>, marks: set<nat>)
    requires OnePlace(start) && Swept(start, {}, kept, marks)
    ensures start.(heap := kept, canceled := marks) == Next(start, Clean)
  {
    assert start.heap - {} == start.heap;
    var next := Next(start, Clean);
    assert kept == next.heap;
    forall id
      ensures id in marks <==> id in next.canceled
    {
      if id in start.canceled && id in (set n | n in start.heap :: n.id) {
        var n :| n in start.heap && n.id == id;
        assert n.id in start.canceled;
      }
    }
  }

  /** `now` is `start` after some earliest nodes left its heap: the unmarked of them are `popped`, in order. */
  ghost predicate PoppedFrom(start: Manager, now: Manager, popped: seq<Node>) {
    && SortedByExpiry(popped) && DistinctIds(popped)
    && (forall n | n in popped :: n in start.heap && n !in now.heap && n.id !in start.canceled)
    && (forall n | n in start.heap && n !in now.heap :: n.id in start.canceled || n in popped)
    && (forall n, k | n in popped && k in now.heap :: n.expire <= k.expire)
    && (forall id :: id in now.canceled <==> id in start.canceled && !LeftUnder(start, now, id))
    && (forall id :: id in now.active <==> id in start.active && !(id in start.canceled && LeftUnder(start, now, id)))
  }

  ghost predicate LeftUnder(start: Manager, now: Manager, id: nat) {
    exists n :: n in start.heap && n !in now.heap && n.id == id
  }

  lemma PoppedNothing(m: Manager)
    ensures PoppedFrom(m, m, [])
  {
  }

  lemma PopKeeps(start: Manager, before: Manager, sofar: seq<Node>, node: Node, after: Manager, popped: seq<Node>)
    requires OnePlace(start) && before.heap <= start.heap && PoppedFrom(start, before, sofar)
    requires IsTop(before.heap, node) && after.heap == before.heap - {node}
    requires if node.id in before.canceled then
               && popped == sofar
               && after.canceled == before.canceled - {node.id} && after.active == before.active - {node.id}
             else
               popped == sofar + [node] && after.canceled == before.canceled && after.active == before.active
    ensures PoppedFrom(start, after, popped)
  {
    assert node in start.heap;
    assert forall n | n in start.heap && n.id == node.id :: n == node;
    assert !LeftUnder(start, before, node.id);
    assert node.id in before.canceled <==> node.id in start.canceled;
    forall id
      ensures LeftUnder(start, after, id) <==> LeftUnder(start, before, id) || id == node.id
    {
      if LeftUnder(start, before, id) {
        var n :| n in start.heap && n !in before.heap && n.id == id;
        assert n !in after.heap;
      }
      if id == node.id {
        assert node !in after.heap;
      }
    }
  }

  lemma AppendTurn(m: Manager, run: seq<Event>, turn: seq<Event>)
    requires Legal(m, run) && Legal(Exec(m, run), turn) && IsPassSoFar(run) && IsTurn(turn)
    ensures Legal(m, run + turn) && Exec(m, run + turn) == Exec(Exec(m, run), turn)
    ensures IsPassSoFar(run + turn) && Fired(run + turn) == Fired(run) + Fired(turn)
  {
    LegalAppend(m, run, turn);
    FiredAppend(run, turn);
  }

  lemma CollectIs(m: Manager, now: nat, popped: seq<Node>, after: Manager)
    requires OnePlace(m) && m.Idle() && m.now <= now < TWO64
    requires after.heap <= m.heap && forall n | n in m.heap :: n in after.heap <==> n.expire > now
    requires PoppedFrom(m, after, popped)
    requires after == m.(heap := after.heap, canceled := after.canceled, active := after.active,
                         due := popped, now := now)
    ensures Enabled(m, Collect(now, popped)) && after == Next(m, Collect(now, popped))
  {
    var e := Collect(now, popped);
    assert Enabled(m, e);
    var next := Next(m, e);
    assert after.heap == next.heap;
    var gone := set n | n in m.heap && n.expire <= now;
    var marked := set n | n in gone && n.id in m.canceled :: n.id;
    forall id
      ensures id in marked <==> id in m.canceled && LeftUnder(m, after, id)
    {
      if id in m.canceled && LeftUnder(m, after, id) {
        var n :| n in m.heap && n !in after.heap && n.id == id;
        assert n in gone;
      }
      if id in marked {
        var n :| n in gone && n.id in m.canceled && n.id == id;
        assert n !in after.heap;
      }
    }
    assert after.canceled == next.canceled;
    assert after.active == next.active;
  }

  /** The events of a turn whose callback ran. */
  lemma TurnRun(m: Manager, check: Event, start: Event, calls: seq<Event>, finish: Event) returns (run: seq<Event>)
    requires check.Check? && start.Start? && finish.Finish? && OnlyCalls(calls)
    requires Enabled(m, check) && Enabled(Next(m, check), start)
    requires var s := Next(Next(m, check), start); Legal(s, calls) && Enabled(Exec(s, calls), finish)
    ensures var s := Next(Next(m, check), start); Legal(m, run) && Exec(m, run) == Next(Exec(s, calls), finish)
    ensures IsTurn(run) && Fired(run) == [start.node]
  {
    hide Next, Enabled;
    var tail := calls + [finish];
    run := [check] + ([start] + tail);
    Extend(Next(Next(m, check), start), calls, finish);
    Prepend(Next(m, check), start, tail);
    Prepend(m, check, [start] + tail);
    TurnShape(check, start, tail);
  }

  lemma Prepend(m: Manager, e: Event, run: seq<Event>)
    requires Enabled(m, e) && Legal(Next(m, e), run)
    ensures Legal(m, [e] + run) && Exec(m, [e] + run) == Exec(Next(m, e), run)
  {
    assert ([e] + run)[1..] == run;
  }

  lemma TurnShape(check: Event, start: Event, tail: seq<Event>)
    requires check.Check? && start.Start? && tail != []
    requires forall e | e in tail :: !e.Check? && !e.Start? && !e.Collect?
    ensures IsTurn([check] + ([start] + tail)) && Fired([check] + ([start] + tail)) == [start.node]
  {
    var run := [check] + ([start] + tail);
    assert run[1..] == [start] + tail && ([start] + tail)[1..] == tail;
    CallsFireNothing(tail);
    assert forall i | 1 < i < |run| :: run[i] == tail[i - 2] && tail[i - 2] in tail;
  }

  lemma {:induction false} CallsFireNothing(run: seq<Event>)
    requires forall e | e in run :: !e.Start?
    ensures Fired(run) == []
  {
    if run != [] {
      assert run[0] in run;
      CallsFireNothing(run[1..]);
    }
  }

  lemma Extend(m: Manager, run: seq<Event>, e: Event)
    requires Legal(m, run) && Enabled(Exec(m, run), e)
    ensures Legal(m, run + [e]) && Exec(m, run + [e]) == Next(Exec(m, run), e)
  {
    var s := Exec(m, run);
    assert [e][1..] == [];
    assert Legal(Next(s, e), []) && Exec(Next(s, e), []) == Next(s, e);
    assert Exec(s, [e]) == Exec(Next(s, e), []);
    LegalAppend(m, run, [e]);
  }

  lemma {:induction false} FiredAppend(a: seq<Event>, b: seq<Event>)
    ensures Fired(a + b) == Fired(a) + Fired(b)
  {
    if a == [] {
      assert a + b == b;
    } else {
      var first := if a[0].Start? then [a[0].node] else [];
      assert (a + b)[1..] == a[1..] + b;
      FiredAppend(a[1..], b);
      Associative(first, Fired(a[1..]), Fired(b));
    }
  }
}
