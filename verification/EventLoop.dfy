/**
 The objects whose locked sections are the steps of the machine in `Reactor`: each method is shown
 to move the part of the machine's state that its object holds as those steps do.
 */
module EventLoop {
  import opened Text
  import opened Reactor

  /** The eventfd that wakes the reactor. */
  class WakeupFd {
    var counter: nat

    constructor ()
      ensures counter == 0
    {
      counter := 0;
    }

    method Write()
      modifies this
      ensures counter == Wakeup(old(counter))
    {
      if counter < EVENTFD_MAX {
        counter := counter + 1;
      } else {
        counter := EVENTFD_MAX;
      }
    }

    /** A non-blocking read: the counter goes to zero, or there is nothing to read. */
    method Read() returns (value: nat)
      modifies this
      ensures value == old(counter) && counter == 0
    {
      value := counter;
      counter := 0;
    }

    method Drain()
      modifies this
      ensures counter == 0
    {
      var value := Read();
      while value > 0
        invariant value == 0 ==> counter == 0
        decreases counter + value
      {
        value := Read();
      }
    }
  }

  class ThreadPool {
    var tasks: seq<nat>
    var stop: bool
    var completions: seq<Item>
    ghost var executed: seq<Item>

    ghost predicate Matches(s: State)
      reads this
    {
      tasks == s.tasks && stop == s.stop && completions == s.completions && executed == s.executed
    }

    constructor (ghost n: nat)
      ensures Matches(Start(n))
    {
      tasks, stop, completions := [], false, [];
      executed := [];
    }

    /** Refuses the task when the pool has been stopped. */
    method EnqueueWithCallback(task: nat, ghost s: State) returns (accepted: bool)
      requires Matches(s) && Enabled(s, Enqueue(task))
      modifies this
      ensures Matches(Next(s, Enqueue(task)))
      ensures accepted <==> task in Next(s, Enqueue(task)).accepted
    {
      if stop {
        return false;
      }
      tasks := tasks + [task];
      accepted := true;
    }

    method RequestStop(ghost s: State)
      requires Matches(s)
      modifies this
      ensures Matches(Next(s, Stop))
    {
      if stop {
        return;
      }
      stop := true;
    }

    /** A worker whose wait is over: it leaves, or takes the oldest task. */
    method NextTask(w: nat, ghost s: State) returns (task: Option<nat>)
      requires Matches(s) && CanAct(s, w) && s.workers[w].pc.Idle? && (s.stop || s.tasks != [])
      modifies this
      ensures task.None? ==> Enabled(s, Exit(w)) && Matches(Next(s, Exit(w)))
      ensures task.Some? ==>
                Enabled(s, Take(w)) && Matches(Next(s, Take(w)))
                && Next(s, Take(w)).workers[w].pc == Running(task.value)
    {
      if stop && tasks == [] {
        return None;
      }
      task := Some(tasks[0]);
      tasks := tasks[1..];
    }

    /** Queues a completion; the first one after the queue was empty asks for a wakeup. */
    method PostCompletion(item: Item, ghost s: State) returns (needWakeup: bool)
      requires Matches(s)
      modifies this
      ensures Matches(Post(s, item)) && needWakeup == (s.completions == [])
    {
      needWakeup := completions == [];
      completions := completions + [item];
    }

    /** Pops the oldest completion. */
    method PopCompletion(ghost s: State) returns (ghost next: State)
      requires Matches(s) && Enabled(s, Execute)
      modifies this
      ensures next == Next(s, Execute) && Matches(next)
      ensures next.phase == s.phase && next.reactorOwes == s.reactorOwes
      ensures |completions| == |old(completions)| - 1
    {
      executed := executed + [completions[0]];
      completions := completions[1..];
      next := Next(s, Execute);
    }

    /** A callback on the reactor posts one more completion, with the wakeup it may owe. */
    method PostFromReactor(tag: nat, ghost s: State) returns (ghost run: seq<Step>)
      requires Matches(s) && InDrain(s)
      modifies this
      ensures Legal(s, run) && Matches(Exec(s, run)) && InDrain(Exec(s, run))
      ensures run == if old(completions) == [] then [ReactorPost(tag), ReactorWake] else [ReactorPost(tag)]
    {
      var needWakeup := PostCompletion(Output(tag), s);
      run := PostRun(s, tag);
    }

    /** A callback on the reactor posts its outputs, in order. */
    method RunCallback(tags: seq<nat>, ghost s: State) returns (ghost run: seq<Step>)
      requires Matches(s) && InDrain(s)
      modifies this
      ensures Legal(s, run) && Matches(Exec(s, run)) && InDrain(Exec(s, run))
      ensures tags == [] ==> run == []
    {
      run := [];
      for i := 0 to |tags|
        invariant Legal(s, run) && Matches(Exec(s, run)) && InDrain(Exec(s, run))
        invariant i == 0 ==> run == []
      {
        ghost var more := PostFromReactor(tags[i], Exec(s, run));
        RunAppend(s, run, more);
        run := run + more;
      }
    }

    /** Executes completions until it finds the queue empty; `script(k)` is what the k-th callback posts. */
    method ProcessCompletions(script: nat -> seq<nat>, limit: nat, ghost s: State) returns (ghost run: seq<Step>)
      requires Matches(s) && InDrain(s)
      requires forall k | k >= limit :: script(k) == []
      modifies this
      ensures Legal(s, run) && Matches(Exec(s, run)) && Enabled(Exec(s, run), DrainDone)
    {
      run := [];
      var k := 0;
      while completions != []
        invariant Legal(s, run) && Matches(Exec(s, run)) && InDrain(Exec(s, run))
        decreases if k < limit then limit - k else 0, |completions|
      {
        ghost var popped := PopCompletion(Exec(s, run));
        Extend(s, run, Execute);
        run := run + [Execute];
        ghost var more := RunCallback(script(k), popped);
        RunAppend(s, run, more);
        run := run + more;
        k := k + 1;
      }
    }
  }

  predicate InDrain(s: State) {
    s.phase.Draining? && !s.reactorOwes
  }

  lemma PostRun(s: State, tag: nat) returns (run: seq<Step>)
    requires InDrain(s)
    ensures Legal(s, run) && InDrain(Exec(s, run))
    ensures Exec(s, run).(eventfd := s.eventfd) == Post(s, Output(tag))
    ensures run == if s.completions == [] then [ReactorPost(tag), ReactorWake] else [ReactorPost(tag)]
  {
    run := [ReactorPost(tag)];
    Extend(s, [], run[0]);
    assert [] + [ReactorPost(tag)] == run;
    if s.completions == [] {
      Extend(s, run, ReactorWake);
      run := run + [ReactorWake];
    }
  }

  lemma {:induction false} RunAppend(s: State, a: seq<Step>, b: seq<Step>)
    requires Legal(s, a) && Legal(Exec(s, a), b)
    ensures Legal(s, a + b) && Exec(s, a + b) == Exec(Exec(s, a), b)
    decreases |a|
  {
    if a == [] {
      assert a + b == b;
    } else {
      assert (a + b)[1..] == a[1..] + b;
      RunAppend(Next(s, a[0]), a[1..], b);
    }
  }

  lemma Extend(s: State, run: seq<Step>, step: Step)
    requires Legal(s, run) && Enabled(Exec(s, run), step)
    ensures Legal(s, run + [step]) && Exec(s, run + [step]) == Next(Exec(s, run), step)
  {
    var at := Exec(s, run);
    assert [step][1..] == [];
    assert Legal(Next(at, step), []) && Exec(Next(at, step), []) == Next(at, step);
    assert Exec(at, [step]) == Exec(Next(at, step), []);
    RunAppend(s, run, [step]);
  }

  class EpollLoop {
    const wakeupFd: WakeupFd
    var readyFds: seq<int>
    var readySet: set<int>
    var pendingCloseFds: seq<int>
    ghost var flushed: seq<int>

    ghost predicate Matches(s: State)
      reads this, wakeupFd
    {
      readyFds == s.readyFds && readySet == s.readySet && flushed == s.flushed && wakeupFd.counter == s.eventfd
    }

    constructor (ghost n: nat)
      ensures Matches(Start(n)) && pendingCloseFds == []
    {
      wakeupFd := new WakeupFd();
      readyFds, readySet, pendingCloseFds, flushed := [], {}, [], [];
    }

    /** Puts an fd on the ready list, once, and wakes the reactor. */
    method ScheduleFlush(fd: int, ghost s: State) returns (ghost run: seq<Step>)
      requires Matches(s) && RunsCallbacks(s)
      modifies this`readyFds, this`readySet, wakeupFd
      ensures Legal(s, run) && Matches(Exec(s, run)) && !Exec(s, run).reactorOwes
      ensures run == [] <==> fd < 0 || fd in s.readySet
      ensures run != [] ==> run == [Schedule(fd), ReactorWake]
    {
      run := [];
      if fd < 0 {
        return;
      }
      if fd in readySet {
        return;
      }
      readySet := readySet + {fd};
      readyFds := readyFds + [fd];
      wakeupFd.Write();
      Extend(s, [], Schedule(fd));
      Extend(s, [Schedule(fd)], ReactorWake);
      assert [] + [Schedule(fd)] == [Schedule(fd)];
      run := [Schedule(fd)] + [ReactorWake];
    }

    /** What one flush asks to be flushed again, in order. */
    method ScheduleFlushes(fds: seq<int>, ghost s: State) returns (ghost run: seq<Step>)
      requires Matches(s) && RunsCallbacks(s) && ListIsSet(s)
      modifies this`readyFds, this`readySet, wakeupFd
      ensures Legal(s, run) && Matches(Exec(s, run)) && RunsCallbacks(Exec(s, run)) && ListIsSet(Exec(s, run))
      ensures Exec(s, run).phase == s.phase && readyFds == Entered(old(readyFds), fds) && OnlySchedules(run)
    {
      hide Legal, Exec;
      run := [];
      NothingDone(s);
      assert fds[..0] == [];
      for i := 0 to |fds|
        invariant Legal(s, run) && Matches(Exec(s, run)) && RunsCallbacks(Exec(s, run)) && ListIsSet(Exec(s, run))
        invariant Exec(s, run).phase == s.phase && readyFds == Entered(old(readyFds), fds[..i]) && OnlySchedules(run)
      {
        assert fds[..i + 1][..i] == fds[..i];
        ghost var at := Exec(s, run);
        ghost var more := ScheduleFlush(fds[i], at);
        ScheduleEnters(at, fds[i], more);
        RunAppend(s, run, more);
        run := run + more;
      }
      assert fds[..|fds|] == fds;
    }

    /** Flushes one connection, with what that schedules and closes. */
    method FlushOne(fd: int, f: Flush, ghost s: State) returns (ghost run: seq<Step>)
      requires Matches(s) && RunsCallbacks(s) && ListIsSet(s)
      modifies this`readyFds, this`readySet, this`pendingCloseFds, wakeupFd
      ensures Legal(s, run) && Matches(Exec(s, run)) && RunsCallbacks(Exec(s, run)) && ListIsSet(Exec(s, run))
      ensures readyFds == Entered(old(readyFds), f.flushes) && OnlySchedules(run)
      ensures pendingCloseFds == old(pendingCloseFds) + (f.closing + if f.closes then [fd] else [])
    {
      hide Legal, Exec, Entered, OnlySchedules;
      run := ScheduleFlushes(f.flushes, s);
      pendingCloseFds := pendingCloseFds + f.closing;
      if f.closes {
        pendingCloseFds := pendingCloseFds + [fd];
      }
    }

    /**
     Flushes every ready connection that still exists, in order. Connections are only removed by the loop,
     later: those that a flush scheduled for closing, and those whose handler answered CLOSE. What a flush
     wants flushed again goes on the new ready list, even an fd that still has its turn on the old one.
     */
    method ProcessReadyFds(connections: set<int>, flush: int -> Flush, ghost s: State)
      returns (ghost run: seq<Step>)
      requires Matches(s) && s.phase.Swapping? && !s.reactorOwes
      modifies this, wakeupFd
      ensures Legal(s, run) && Matches(Exec(s, run)) && run != [] && run[0] == Swap && OnlySchedules(run[1..])
      ensures pendingCloseFds == old(pendingCloseFds) + ToClose(s.readyFds, connections, flush)
      ensures readyFds == Entered([], ToFlush(s.readyFds, connections, flush))
    {
      hide Legal, Exec, Entered, RunsCallbacks, ListIsSet, OnlySchedules;
      var ready := readyFds;
      readyFds, readySet := [], {};
      flushed := flushed + ready;
      run := [Swap];
      AfterSwap(s);
      EnteredNothing([]);
      assert ready[..0] == [] && [Swap][1..] == [];
      for i := 0 to |ready|
        invariant Legal(s, run) && Matches(Exec(s, run)) && RunsCallbacks(Exec(s, run)) && ListIsSet(Exec(s, run))
        invariant run != [] && run[0] == Swap && OnlySchedules(run[1..])
        invariant readyFds == Entered([], ToFlush(ready[..i], connections, flush))
        invariant pendingCloseFds == old(pendingCloseFds) + ToClose(ready[..i], connections, flush)
      {
        OneMore(ready, i, connections, flush);
        if ready[i] in connections {
          EnteredAppend([], ToFlush(ready[..i], connections, flush), flush(ready[i]).flushes);
          ghost var more := FlushOne(ready[i], flush(ready[i]), Exec(s, run));
          SchedulesAppend(run, more);
          RunAppend(s, run, more);
          run := run + more;
        }
      }
      assert ready[..|ready|] == ready;
    }
  }

  ghost predicate ListIsSet(s: State) {
    forall fd :: fd in s.readySet <==> fd in s.readyFds
  }

  predicate OnlySchedules(run: seq<Step>) {
    forall step | step in run :: step.Schedule? || step.ReactorWake?
  }

  lemma SchedulesAppend(run: seq<Step>, more: seq<Step>)
    requires run != [] && OnlySchedules(run[1..]) && OnlySchedules(more)
    ensures OnlySchedules((run + more)[1..])
  {
    assert (run + more)[1..] == run[1..] + more;
  }

  /** The ready list after these fds were scheduled, each of them once. */
  function Entered(ready: seq<int>, fds: seq<int>): seq<int> {
    if fds == [] then ready
    else
      var before, last := Entered(ready, fds[..|fds| - 1]), fds[|fds| - 1];
      if last < 0 || last in before then before else before + [last]
  }

  lemma EnteredNothing(ready: seq<int>)
    ensures Entered(ready, []) == ready
  {
  }

  lemma {:induction false} EnteredAppend(ready: seq<int>, a: seq<int>, b: seq<int>)
    ensures Entered(ready, a + b) == Entered(Entered(ready, a), b)
    decreases |b|
  {
    if b == [] {
      assert a + b == a;
    } else {
      assert (a + b)[..|a + b| - 1] == a + b[..|b| - 1];
      EnteredAppend(ready, a, b[..|b| - 1]);
    }
  }

  lemma NothingDone(s: State)
    ensures Legal(s, []) && Exec(s, []) == s
  {
  }

  lemma AfterSwap(s: State)
    requires s.phase.Swapping? && !s.reactorOwes
    ensures Legal(s, [Swap]) && Exec(s, [Swap]) == Next(s, Swap)
    ensures RunsCallbacks(Next(s, Swap)) && ListIsSet(Next(s, Swap)) && OnlySchedules([])
  {
    NothingDone(Next(s, Swap));
    assert [Swap][1..] == [];
  }

  lemma ScheduleEnters(s: State, fd: int, run: seq<Step>)
    requires RunsCallbacks(s) && ListIsSet(s)
    requires run == if fd < 0 || fd in s.readySet then [] else [Schedule(fd), ReactorWake]
    ensures Legal(s, run) && OnlySchedules(run)
    ensures var next := Exec(s, run);
            RunsCallbacks(next) && ListIsSet(next) && next.phase == s.phase
            && next.readyFds == Entered(s.readyFds, [fd])
  {
    assert [fd][..0] == [];
    EnteredNothing(s.readyFds);
    if run != [] {
      NothingDone(s);
      Extend(s, [], Schedule(fd));
      Extend(s, [Schedule(fd)], ReactorWake);
      assert [] + [Schedule(fd)] == [Schedule(fd)] && [Schedule(fd)] + [ReactorWake] == run;
    }
  }

  /** What a flush wanted flushed again and closed while it sent, and whether its handler answered CLOSE. */
  datatype Flush = Flush(flushes: seq<int>, closing: seq<int>, closes: bool)

  function ToFlush(fds: seq<int>, connections: set<int>, flush: int -> Flush): seq<int> {
    if fds == [] then []
    else
      var last := fds[|fds| - 1];
      ToFlush(fds[..|fds| - 1], connections, flush) + if last in connections then flush(last).flushes else []
  }

  function ToClose(fds: seq<int>, connections: set<int>, flush: int -> Flush): seq<int> {
    if fds == [] then []
    else
      var last := fds[|fds| - 1];
      ToClose(fds[..|fds| - 1], connections, flush)
      + if last !in connections then []
        else flush(last).closing + if flush(last).closes then [last] else []
  }

  lemma OneMore(fds: seq<int>, i: nat, connections: set<int>, flush: int -> Flush)
    requires i < |fds|
    ensures ToFlush(fds[..i + 1], connections, flush) ==
            ToFlush(fds[..i], connections, flush) + if fds[i] in connections then flush(fds[i]).flushes else []
    ensures fds[i] !in connections ==>
              ToFlush(fds[..i + 1], connections, flush) == ToFlush(fds[..i], connections, flush)
    ensures ToClose(fds[..i + 1], connections, flush) ==
            ToClose(fds[..i], connections, flush)
            + if fds[i] !in connections then []
              else flush(fds[i]).closing + if flush(fds[i]).closes then [fds[i]] else []
  {
    assert fds[..i + 1][..i] == fds[..i];
  }
}
