/**
 The reactor and the thread pool as one machine. Its steps are the sections that run under one
 lock, the system calls, and the start and end of a task; the workers, the reactor and the threads
 that add timers or tasks interleave freely. A thread that must still write the eventfd owes a wakeup.
 */
module Reactor {
  import opened Text

  /** A completion callback: the completion of a task, or output a running task emitted. */
  datatype Item = Completion(task: nat) | Output(tag: nat)

  datatype WorkerPc = Idle | Running(task: nat) | Finished(task: nat) | Exited

  datatype Worker = Worker(pc: WorkerPc, owes: bool)

  datatype Phase =
    | Computing
    | Waiting(until: Option<nat>, since: nat)
    | Handling(wakeEvent: bool)
    | Clearing
    | Swapping
    | TimerPass
    | Draining

  datatype State = State(
    // Tasks: accepted so far, still queued, taken by a worker, finished.
    accepted: seq<nat>,
    tasks: seq<nat>,
    started: seq<nat>,
    ran: seq<nat>,
    stop: bool,
    workers: seq<Worker>,
    // Completions: posted so far, still queued, executed by the reactor.
    posted: seq<Item>,
    completions: seq<Item>,
    executed: seq<Item>,
    // The reactor.
    eventfd: nat,
    phase: Phase,
    reactorOwes: bool,
    readyFds: seq<int>,
    readySet: set<int>,
    // Every fd that was put on the ready list, and every fd that was taken from it to be flushed.
    scheduled: seq<int>,
    flushed: seq<int>,
    // Expiry times in the timer heap, and how many threads owe a wakeup for a timer they added.
    heap: multiset<nat>,
    timerOwes: nat)

  const EVENTFD_MAX: nat := 0xFFFF_FFFF_FFFF_FFFE

  /** A non-blocking write of 1 to the eventfd; at the maximum it fails and the fd stays readable. */
  function Wakeup(counter: nat): (r: nat)
    ensures r > 0
  {
    if counter < EVENTFD_MAX then counter + 1 else EVENTFD_MAX
  }

  // ---------- The wait time ----------

  const TWO31: nat := 0x8000_0000
  const TWO32: nat := 0x1_0000_0000

  /** The timeout `epoll_wait` gets: the 64-bit value cut to an int, where negative means no timeout. */
  function EpollTimeout(ms: nat): Option<nat> {
    if ms % TWO32 < TWO31 then Some(ms % TWO32) else None
  }

  /** Cutting to an int is harmless exactly when the sign bit of the low word is clear. */
  lemma TimeoutIsHarmless(ms: nat)
    ensures (EpollTimeout(ms).Some? && EpollTimeout(ms).value <= ms) <==> ms % TWO32 < TWO31
    ensures ms < TWO31 ==> EpollTimeout(ms) == Some(ms)
  {
    assert ms == (ms / TWO32) * TWO32 + ms % TWO32;
  }

  predicate IsMin(heap: multiset<nat>, e: nat) {
    e in heap && forall k | k in heap :: e <= k
  }

  function TimeLeft(expiry: nat, now: nat): nat {
    if expiry <= now then 0 else expiry - now
  }

  /** Until when the reactor waits, given the earliest expiry and the time. */
  function WaitUntil(top: Option<nat>, now: nat): Option<nat> {
    match top
    case None => None
    case Some(e) =>
      match EpollTimeout(TimeLeft(e, now))
      case None => None
      case Some(ms) => Some(now + ms)
  }

  /** A timer that expires before every node of the heap needs the reactor to look again. */
  predicate NeedsWake(heap: multiset<nat>, e: nat) {
    forall k | k in heap :: e < k
  }

  // ---------- Steps ----------

  datatype Step =
    | Enqueue(task: nat)
    | Stop
    | Take(w: nat)
    | Exit(w: nat)
    | Emit(w: nat, tag: nat)
    | Return(w: nat)
    | PostCompletion(w: nat)
    | WorkerWake(w: nat)
    | AddTimer(e: nat)
    | TimerWake
    | DropTimer(e: nat)
    | Compute(top: Option<nat>, now: nat)
    | LeaveWait
    | Interrupted
    | ReadEventfd
    | ClearDone
    | Swap
    | EnterTimers
    | PopTimer(e: nat)
    | Rearm(e: nat)
    | ReactorAddTimer(e: nat)
    | Schedule(fd: int)
    | ReactorPost(tag: nat)
    | ReactorWake
    | EnterDrain
    | Execute
    | DrainDone

  /** Phases in which the reactor runs handlers and callbacks. */
  predicate RunsCallbacks(s: State) {
    (s.phase.Handling? || s.phase.TimerPass? || s.phase.Draining?) && !s.reactorOwes
  }

  predicate CanAct(s: State, w: nat) {
    w < |s.workers| && !s.workers[w].owes
  }

  predicate Enabled(s: State, step: Step) {
    match step
    case Enqueue(task) => task !in s.accepted
    case Stop => true
    case Take(w) => CanAct(s, w) && s.workers[w].pc.Idle? && s.tasks != []
    case Exit(w) => CanAct(s, w) && s.workers[w].pc.Idle? && s.stop && s.tasks == []
    case Emit(w, _) => CanAct(s, w) && s.workers[w].pc.Running?
    case Return(w) => CanAct(s, w) && s.workers[w].pc.Running?
    case PostCompletion(w) => CanAct(s, w) && s.workers[w].pc.Finished?
    case WorkerWake(w) => w < |s.workers| && s.workers[w].owes
    case AddTimer(_) => true
    case TimerWake => s.timerOwes > 0
    case DropTimer(e) => e in s.heap
    case Compute(top, _) =>
      s.phase.Computing? && !s.reactorOwes
      && (if top.Some? then IsMin(s.heap, top.value) else s.heap == multiset{})
    case LeaveWait => s.phase.Waiting? && !s.reactorOwes
    case Interrupted => s.phase.Waiting? && !s.reactorOwes
    case ReadEventfd => (s.phase == Handling(true) || s.phase.Clearing?) && !s.reactorOwes && s.eventfd > 0
    case ClearDone => s.phase.Clearing? && s.eventfd == 0
    case Swap => s.phase.Swapping?
    case EnterTimers => s.phase == Handling(false) && !s.reactorOwes
    case PopTimer(e) => s.phase.TimerPass? && !s.reactorOwes && e in s.heap
    case Rearm(_) => s.phase.TimerPass? && !s.reactorOwes
    case ReactorAddTimer(_) => RunsCallbacks(s)
    case Schedule(_) => RunsCallbacks(s)
    case ReactorPost(_) => RunsCallbacks(s)
    case ReactorWake => s.reactorOwes
    case EnterDrain => s.phase.TimerPass? && !s.reactorOwes
    case Execute => s.phase.Draining? && !s.reactorOwes && s.completions != []
    case DrainDone => s.phase.Draining? && !s.reactorOwes && s.completions == []
  }

  function Post(s: State, item: Item): State {
    s.(posted := s.posted + [item], completions := s.completions + [item])
  }

  function Next(s: State, step: Step): State
    requires Enabled(s, step)
  {
    match step
    case Enqueue(task) =>
      if s.stop then s else s.(accepted := s.accepted + [task], tasks := s.tasks + [task])
    case Stop => s.(stop := true)
    case Take(w) =>
      s.(tasks := s.tasks[1..], started := s.started + [s.tasks[0]],
         workers := s.workers[w := Worker(Running(s.tasks[0]), false)])
    case Exit(w) => s.(workers := s.workers[w := Worker(Exited, false)])
    case Emit(w, tag) =>
      Post(s, Output(tag)).(workers := s.workers[w := s.workers[w].(owes := s.completions == [])])
    case Return(w) =>
      s.(ran := s.ran + [s.workers[w].pc.task],
         workers := s.workers[w := Worker(Finished(s.workers[w].pc.task), false)])
    case PostCompletion(w) =>
      Post(s, Completion(s.workers[w].pc.task)).(workers := s.workers[w := Worker(Idle, s.completions == [])])
    case WorkerWake(w) =>
      s.(eventfd := Wakeup(s.eventfd), workers := s.workers[w := s.workers[w].(owes := false)])
    case AddTimer(e) =>
      s.(heap := s.heap + multiset{e}, timerOwes := s.timerOwes + if NeedsWake(s.heap, e) then 1 else 0)
    case TimerWake => s.(eventfd := Wakeup(s.eventfd), timerOwes := s.timerOwes - 1)
    case DropTimer(e) => s.(heap := s.heap - multiset{e})
    case Compute(top, now) => s.(phase := Waiting(WaitUntil(top, now), now))
    case LeaveWait => s.(phase := Handling(s.eventfd > 0))
    case Interrupted => s.(phase := Computing)
    case ReadEventfd => s.(eventfd := 0, phase := Clearing)
    case ClearDone => s.(phase := Swapping)
    case Swap => s.(phase := Handling(false), readyFds := [], readySet := {}, flushed := s.flushed + s.readyFds)
    case EnterTimers => s.(phase := TimerPass)
    case PopTimer(e) => s.(heap := s.heap - multiset{e})
    case Rearm(e) => s.(heap := s.heap + multiset{e})
    case ReactorAddTimer(e) => s.(heap := s.heap + multiset{e}, reactorOwes := NeedsWake(s.heap, e))
    case Schedule(fd) =>
      if fd < 0 || fd in s.readySet then s
      else
        s.(readySet := s.readySet + {fd}, readyFds := s.readyFds + [fd], scheduled := s.scheduled + [fd],
           reactorOwes := true)
    case ReactorPost(tag) => Post(s, Output(tag)).(reactorOwes := s.completions == [])
    case ReactorWake => s.(eventfd := Wakeup(s.eventfd), reactorOwes := false)
    case EnterDrain => s.(phase := Draining)
    case Execute => s.(executed := s.executed + [s.completions[0]], completions := s.completions[1..])
    case DrainDone => s.(phase := Computing)
  }

  /** A pool of `n` idle workers and a reactor about to enter its loop. */
  function Start(n: nat): State {
    State([], [], [], [], false, seq(n, _ => Worker(Idle, false)), [], [], [],
          0, Computing, false, [], {}, [], [], multiset{}, 0)
  }

  // ---------- No lost wakeup ----------

  /** The reactor blocks in `epoll_wait`, or will without looking at its queues again. */
  predicate MayBlock(s: State) {
    s.phase.Computing? || s.phase.Waiting?
  }

  ghost predicate SomeWorkerOwes(s: State) {
    exists w :: 0 <= w < |s.workers| && s.workers[w].owes
  }

  /** Completions are noticed: a queue that is not empty when the reactor may block has a wakeup coming. */
  ghost predicate CompletionsNoticed(s: State) {
    MayBlock(s) && s.completions != [] ==> s.eventfd > 0 || SomeWorkerOwes(s)
  }

  predicate NoDuplicates<T(==)>(xs: seq<T>) {
    forall i, j | 0 <= i < j < |xs| :: xs[i] != xs[j]
  }

  /** The ready list holds each fd once and agrees with the ready set; its wakeup is never lost. */
  predicate ReadyNoticed(s: State) {
    && NoDuplicates(s.readyFds) && s.readySet == (set fd | fd in s.readyFds)
    && (s.readyFds != [] ==> s.eventfd > 0 || s.reactorOwes || s.phase.Clearing? || s.phase.Swapping?)
    && (MayBlock(s) ==> !s.reactorOwes)
    && (s.phase.Clearing? || s.phase.Swapping? ==> !s.reactorOwes)
  }

  lemma CompletionsStayNoticed(s: State, step: Step)
    requires CompletionsNoticed(s) && ReadyNoticed(s) && Enabled(s, step)
    ensures CompletionsNoticed(Next(s, step))
  {
    var next := Next(s, step);
    if MayBlock(s) && SomeWorkerOwes(s) && next.eventfd == 0 {
      var w :| 0 <= w < |s.workers| && s.workers[w].owes;
      assert next.workers[w].owes;
    }
    if step.Emit? || step.PostCompletion? {
      if s.completions == [] {
        assert next.workers[step.w].owes;
      }
    }
  }

  lemma ReadyStaysNoticed(s: State, step: Step)
    requires ReadyNoticed(s) && Enabled(s, step)
    ensures ReadyNoticed(Next(s, step))
  {
    hide Wakeup, NeedsWake, WaitUntil, IsMin;
    if step.Schedule? {
      ScheduleIsNoticed(s, step.fd);
    }
  }

  lemma ScheduleIsNoticed(s: State, fd: int)
    requires ReadyNoticed(s) && Enabled(s, Schedule(fd))
    ensures ReadyNoticed(Next(s, Schedule(fd)))
  {
    assert forall x :: x in s.readyFds + [fd] <==> x in s.readyFds || x == fd;
  }

  // ---------- No timer overslept ----------

  function Later(a: nat, b: nat): nat {
    if a < b then b else a
  }

  /** The wait ends no later than every node expires, or at once when one has expired already. */
  predicate WaitsShortEnough(s: State) {
    s.phase.Waiting? && s.heap != multiset{} ==>
      s.phase.until.Some? && forall e | e in s.heap :: s.phase.until.value <= Later(e, s.phase.since)
  }

  /** The reactor sleeps past no timer, unless a wakeup for an earlier one is there or owed. */
  predicate NoOversleep(s: State) {
    WaitsShortEnough(s) || s.eventfd > 0 || s.timerOwes > 0
  }

  /** The timeout of a `Compute` step survives being cut to an int. */
  predicate TimeoutFits(step: Step) {
    step.Compute? && step.top.Some? ==> TimeLeft(step.top.value, step.now) % TWO32 < TWO31
  }

  /** The wait the reactor computes is short enough exactly when its timeout fits an int. */
  lemma ComputedWaitIsShortEnough(s: State, step: Step)
    requires step.Compute? && Enabled(s, step)
    ensures WaitsShortEnough(Next(s, step)) <==> TimeoutFits(step)
  {
    if step.top.Some? {
      var ms := TimeLeft(step.top.value, step.now);
      TimeoutIsHarmless(ms);
      assert step.top.value in s.heap;
    }
  }

  /**
   The wait lasts exactly until the earliest expiry, or not at all when that has come, if and only if it is
   less than 2^31 ms away; without a timer there is no end to it.
   */
  lemma WaitEndsAtTheExpiry(s: State, top: Option<nat>, now: nat)
    requires Enabled(s, Compute(top, now))
    ensures var phase := Next(s, Compute(top, now)).phase;
            && phase.Waiting? && phase.since == now
            && if s.heap == multiset{} then phase.until == None
               else
                 && top.Some? && top.value in s.heap && (forall e | e in s.heap :: top.value <= e)
                 && (phase.until == Some(Later(top.value, now)) <==> top.value <= now || top.value - now < TWO31)
  {
    if top.Some? {
      TimeoutIsHarmless(TimeLeft(top.value, now));
    }
  }

  lemma AddedTimerIsNoticed(s: State, e: nat)
    requires WaitsShortEnough(s) && !NeedsWake(s.heap, e)
    ensures WaitsShortEnough(s.(heap := s.heap + multiset{e}))
  {
    var k :| k in s.heap && k <= e;
    assert s.phase.Waiting? && s.phase.until.Some? ==> s.phase.until.value <= Later(k, s.phase.since);
  }

  /** What the wait depends on is left alone, or more is to wake the reactor. */
  lemma QuietForTimers(s: State, step: Step)
    requires Enabled(s, step) && !step.Compute? && !step.AddTimer? && NoOversleep(s)
    ensures NoOversleep(Next(s, step))
  {
  }

  lemma NoOversleepStays(s: State, step: Step)
    requires NoOversleep(s) && Enabled(s, step) && TimeoutFits(step)
    ensures NoOversleep(Next(s, step))
  {
    if step.Compute? {
      ComputedWaitIsShortEnough(s, step);
    } else if step.AddTimer? {
      if !NeedsWake(s.heap, step.e) && WaitsShortEnough(s) {
        AddedTimerIsNoticed(s, step.e);
      }
    } else {
      QuietForTimers(s, step);
    }
  }

  // ---------- Each task once ----------

  predicate InOrder(s: State) {
    && s.started + s.tasks == s.accepted
    && s.executed + s.completions == s.posted
    && s.flushed + s.readyFds == s.scheduled
    && NoDuplicates(s.accepted)
  }

  /** A task is with at most one worker, and it is there from its start to its completion. */
  ghost predicate EachTaskOnce(s: State) {
    && NoDuplicates(s.ran)
    && (forall i, j | 0 <= i < j < |s.posted| && s.posted[i].Completion? :: s.posted[i] != s.posted[j])
    && (forall t | t in s.ran :: t in s.started)
    && (forall t | Completion(t) in s.posted :: t in s.ran)
    && (forall v, w | 0 <= v < w < |s.workers| && Held(s, v).Some? :: Held(s, v) != Held(s, w))
    && (forall w | 0 <= w < |s.workers| && s.workers[w].pc.Running? ::
          s.workers[w].pc.task in s.started && s.workers[w].pc.task !in s.ran)
    && (forall w | 0 <= w < |s.workers| && s.workers[w].pc.Finished? ::
          s.workers[w].pc.task in s.ran && Completion(s.workers[w].pc.task) !in s.posted)
    && (forall t | t in s.started && t !in s.ran :: IsWith(s, Running(t)))
    && (forall t | t in s.ran && Completion(t) !in s.posted :: IsWith(s, Finished(t)))
  }

  function Held(s: State, w: nat): Option<nat>
    requires w < |s.workers|
  {
    match s.workers[w].pc
    case Running(t) => Some(t)
    case Finished(t) => Some(t)
    case _ => None
  }

  ghost predicate IsWith(s: State, p: WorkerPc) {
    exists w :: 0 <= w < |s.workers| && s.workers[w].pc == p
  }

  /** A worker leaves only when the pool is stopped and drained, and then it stays drained. */
  predicate DrainedBeforeExit(s: State) {
    forall w | 0 <= w < |s.workers| && s.workers[w].pc.Exited? :: s.stop && s.tasks == []
  }

  /** The queues and logs that `InOrder` is about. */
  predicate SameQueues(s: State, next: State) {
    && next.started == s.started && next.tasks == s.tasks && next.accepted == s.accepted
    && next.executed == s.executed && next.completions == s.completions && next.posted == s.posted
    && next.flushed == s.flushed && next.readyFds == s.readyFds && next.scheduled == s.scheduled
  }

  predicate MovesQueues(step: Step) {
    step.Enqueue? || step.Take? || step.Emit? || step.PostCompletion? || step.ReactorPost? || step.Execute?
    || step.Schedule? || step.Swap?
  }

  lemma OtherStepsKeepQueues(s: State, step: Step)
    requires Enabled(s, step) && !MovesQueues(step)
    ensures SameQueues(s, Next(s, step))
  {
  }

  lemma TaskStepInOrder(s: State, step: Step)
    requires InOrder(s) && Enabled(s, step) && (step.Enqueue? || step.Take?)
    ensures InOrder(Next(s, step))
  {
  }

  lemma CompletionStepInOrder(s: State, step: Step)
    requires InOrder(s) && Enabled(s, step)
    requires step.Emit? || step.PostCompletion? || step.ReactorPost? || step.Execute?
    ensures InOrder(Next(s, step))
  {
  }

  lemma FlushStepInOrder(s: State, step: Step)
    requires InOrder(s) && Enabled(s, step) && (step.Schedule? || step.Swap?)
    ensures InOrder(Next(s, step))
  {
  }

  lemma InOrderStays(s: State, step: Step)
    requires InOrder(s) && Enabled(s, step)
    ensures InOrder(Next(s, step))
  {
    hide Next;
    if !MovesQueues(step) {
      OtherStepsKeepQueues(s, step);
    } else if step.Enqueue? || step.Take? {
      TaskStepInOrder(s, step);
    } else if step.Schedule? || step.Swap? {
      FlushStepInOrder(s, step);
    } else {
      CompletionStepInOrder(s, step);
    }
  }

  lemma DrainedStays(s: State, step: Step)
    requires DrainedBeforeExit(s) && Enabled(s, step)
    ensures DrainedBeforeExit(Next(s, step))
  {
    assert forall w | 0 <= w < |s.workers| && Next(s, step).workers[w].pc.Exited? && !step.Exit? ::
        s.workers[w].pc.Exited?;
  }

  /** Another worker keeps what it has when worker `w` moves on. */
  lemma OthersKeep(s: State, next: State, w: nat, p: WorkerPc)
    requires w < |s.workers| == |next.workers|
    requires forall v | 0 <= v < |s.workers| && v != w :: next.workers[v].pc == s.workers[v].pc
    requires IsWith(s, p) && s.workers[w].pc != p
    ensures IsWith(next, p)
  {
    var v :| 0 <= v < |s.workers| && s.workers[v].pc == p;
    assert next.workers[v].pc == p;
  }

  lemma TakeKeeps(s: State, w: nat)
    requires InOrder(s) && EachTaskOnce(s) && Enabled(s, Take(w))
    ensures EachTaskOnce(Next(s, Take(w)))
  {
    var next, task := Next(s, Take(w)), s.tasks[0];
    assert task == s.accepted[|s.started|];
    assert forall i | 0 <= i < |s.started| :: s.started[i] == s.accepted[i];
    assert task !in s.started;
    assert next.workers[w].pc == Running(task);
    forall t | t in next.started && t !in next.ran
      ensures IsWith(next, Running(t))
    {
      if t != task {
        OthersKeep(s, next, w, Running(t));
      }
    }
    forall t | t in next.ran && Completion(t) !in next.posted
      ensures IsWith(next, Finished(t))
    {
      OthersKeep(s, next, w, Finished(t));
    }
    forall v | 0 <= v < |s.workers| && v != w && Held(next, v).Some?
      ensures Held(next, v) == Held(s, v) && Held(next, v).value != task
    {
    }
  }

  lemma ReturnKeeps(s: State, w: nat)
    requires EachTaskOnce(s) && Enabled(s, Return(w))
    ensures EachTaskOnce(Next(s, Return(w)))
  {
    var next, task := Next(s, Return(w)), s.workers[w].pc.task;
    assert next.workers[w].pc == Finished(task);
    forall t | t in next.started && t !in next.ran
      ensures IsWith(next, Running(t))
    {
      OthersKeep(s, next, w, Running(t));
    }
    forall t | t in next.ran && Completion(t) !in next.posted
      ensures IsWith(next, Finished(t))
    {
      if t != task {
        OthersKeep(s, next, w, Finished(t));
      }
    }
    assert Held(s, w) == Some(task);
    forall v | 0 <= v < |s.workers|
      ensures Held(next, v) == Held(s, v)
      ensures v != w && next.workers[v].pc.Running? ==> next.workers[v].pc.task !in next.ran
    {
      if v != w && Held(s, v).Some? {
        assert Held(s, v) != Held(s, w);
      }
    }
  }

  lemma PostCompletionKeeps(s: State, w: nat)
    requires EachTaskOnce(s) && Enabled(s, PostCompletion(w))
    ensures EachTaskOnce(Next(s, PostCompletion(w)))
  {
    var next, task := Next(s, PostCompletion(w)), s.workers[w].pc.task;
    assert Completion(task) in next.posted;
    forall t | t in next.started && t !in next.ran
      ensures IsWith(next, Running(t))
    {
      OthersKeep(s, next, w, Running(t));
    }
    forall t | t in next.ran && Completion(t) !in next.posted
      ensures IsWith(next, Finished(t))
    {
      assert Completion(t) !in s.posted;
      OthersKeep(s, next, w, Finished(t));
    }
    assert Held(s, w) == Some(task);
    forall v | 0 <= v < |s.workers| && v != w
      ensures Held(next, v) == Held(s, v)
      ensures next.workers[v].pc.Finished? ==> Completion(next.workers[v].pc.task) !in next.posted
    {
      if Held(s, v).Some? {
        assert Held(s, v) != Held(s, w);
      }
    }
  }

  /** A step after which every worker holds what it held, and which at most posts output. */
  lemma QuietStepKeeps(s: State, next: State)
    requires EachTaskOnce(s)
    requires next.started == s.started && next.ran == s.ran && |next.workers| == |s.workers|
    requires next.posted == s.posted || exists tag :: next.posted == s.posted + [Output(tag)]
    requires forall w | 0 <= w < |s.workers| ::
               next.workers[w].pc == s.workers[w].pc || (s.workers[w].pc.Idle? && next.workers[w].pc.Exited?)
    ensures EachTaskOnce(next)
  {
    assert forall t :: Completion(t) in next.posted <==> Completion(t) in s.posted;
    forall p: WorkerPc | (p.Running? || p.Finished?) && IsWith(s, p)
      ensures IsWith(next, p)
    {
      var w :| 0 <= w < |s.workers| && s.workers[w].pc == p;
      assert next.workers[w].pc == p;
    }
    forall w | 0 <= w < |s.workers|
      ensures Held(next, w) == Held(s, w)
    {
    }
  }

  predicate IsQuiet(step: Step) {
    !step.Take? && !step.Return? && !step.PostCompletion? && !step.Emit? && !step.ReactorPost?
  }

  lemma QuietStepFrame(s: State, step: Step)
    requires Enabled(s, step) && IsQuiet(step)
    ensures var next := Next(s, step);
            && next.started == s.started && next.ran == s.ran && next.posted == s.posted
            && |next.workers| == |s.workers|
            && forall w | 0 <= w < |s.workers| ::
                 next.workers[w].pc == s.workers[w].pc || (s.workers[w].pc.Idle? && next.workers[w].pc.Exited?)
  {
  }

  lemma QuietKeeps(s: State, step: Step)
    requires EachTaskOnce(s) && Enabled(s, step) && IsQuiet(step)
    ensures EachTaskOnce(Next(s, step))
  {
    hide EachTaskOnce, Next, Enabled, IsQuiet;
    QuietStepFrame(s, step);
    QuietStepKeeps(s, Next(s, step));
  }

  lemma OutputStepKeeps(s: State, step: Step)
    requires EachTaskOnce(s) && Enabled(s, step) && (step.Emit? || step.ReactorPost?)
    ensures EachTaskOnce(Next(s, step))
  {
    assert Next(s, step).posted == s.posted + [Output(step.tag)];
    QuietStepKeeps(s, Next(s, step));
  }

  lemma EachTaskStaysOnce(s: State, step: Step)
    requires InOrder(s) && EachTaskOnce(s) && Enabled(s, step)
    ensures EachTaskOnce(Next(s, step))
  {
    hide EachTaskOnce, InOrder, Next;
    match step
    case Take(w) => TakeKeeps(s, w);
    case Return(w) => ReturnKeeps(s, w);
    case PostCompletion(w) => PostCompletionKeeps(s, w);
    case Emit(_, _) => OutputStepKeeps(s, step);
    case ReactorPost(_) => OutputStepKeeps(s, step);
    case _ => QuietKeeps(s, step);
  }

  // ---------- Whole runs ----------

  ghost predicate Inv(s: State) {
    CompletionsNoticed(s) && ReadyNoticed(s) && InOrder(s) && EachTaskOnce(s) && DrainedBeforeExit(s)
  }

  predicate Legal(s: State, run: seq<Step>)
    decreases |run|
  {
    run == [] || (Enabled(s, run[0]) && Legal(Next(s, run[0]), run[1..]))
  }

  function Exec(s: State, run: seq<Step>): State
    requires Legal(s, run)
    decreases |run|
  {
    if run == [] then s else Exec(Next(s, run[0]), run[1..])
  }

  lemma StepKeeps(s: State, step: Step)
    requires Inv(s) && Enabled(s, step)
    ensures Inv(Next(s, step))
  {
    CompletionsStayNoticed(s, step);
    ReadyStaysNoticed(s, step);
    InOrderStays(s, step);
    EachTaskStaysOnce(s, step);
    DrainedStays(s, step);
  }

  lemma {:induction false} RunKeeps(s: State, run: seq<Step>)
    requires Inv(s) && Legal(s, run)
    ensures Inv(Exec(s, run))
    decreases |run|
  {
    if run != [] {
      StepKeeps(s, run[0]);
      RunKeeps(Next(s, run[0]), run[1..]);
    }
  }

  lemma StartHasNoTasks(n: nat)
    ensures EachTaskOnce(Start(n))
  {
  }

  lemma StartKeeps(n: nat)
    ensures Inv(Start(n))
  {
    hide EachTaskOnce;
    StartHasNoTasks(n);
  }

  /**
   No lost wakeup, in every interleaving of any number of workers: whenever the reactor may block,
   completions that wait for it have made the eventfd readable or a worker still owes the wakeup,
   and fds that wait to be flushed have made it readable.
   */
  lemma NoLostWakeup(n: nat, run: seq<Step>)
    requires Legal(Start(n), run)
    ensures var s := Exec(Start(n), run);
            MayBlock(s) ==>
              && (s.completions != [] ==> s.eventfd > 0 || SomeWorkerOwes(s))
              && (s.readyFds != [] ==> s.eventfd > 0)
    ensures var s := Exec(Start(n), run);
            NoDuplicates(s.readyFds) && s.readySet == (set fd | fd in s.readyFds)
  {
    hide EachTaskOnce, InOrder, DrainedBeforeExit, Exec;
    StartKeeps(n);
    RunKeeps(Start(n), run);
  }

  /**
   Completions run, and fds are flushed, once each and in the order they were posted or scheduled; and
   the reactor goes back to waiting only after it executed everything posted so far.
   */
  lemma CompletionsRunInPostingOrder(n: nat, run: seq<Step>)
    requires Legal(Start(n), run)
    ensures var s := Exec(Start(n), run);
            s.executed <= s.posted && (Enabled(s, DrainDone) ==> s.executed == s.posted)
    ensures var s := Exec(Start(n), run);
            s.flushed <= s.scheduled && (s.readyFds == [] ==> s.flushed == s.scheduled)
  {
    hide EachTaskOnce, DrainedBeforeExit, CompletionsNoticed, ReadyNoticed;
    StartKeeps(n);
    RunKeeps(Start(n), run);
  }

  ghost predicate Joined(s: State) {
    s.workers != [] && forall w | 0 <= w < |s.workers| :: s.workers[w].pc.Exited?
  }

  /**
   In every interleaving a task runs at most once, after it was accepted and before its completion
   is posted, and tasks start in the order they were accepted; and once the pool has been stopped
   and its workers joined, every accepted task has run, its completion is posted, and none is queued.
   */
  lemma TasksRunExactlyOnce(n: nat, run: seq<Step>)
    requires Legal(Start(n), run)
    ensures var s := Exec(Start(n), run);
            && s.started <= s.accepted && NoDuplicates(s.accepted) && NoDuplicates(s.ran)
            && (forall t | Completion(t) in s.posted :: t in s.ran)
            && (forall t | t in s.ran :: t in s.started)
    ensures var s := Exec(Start(n), run);
            Joined(s) ==>
              && s.stop && s.tasks == []
              && (forall t :: t in s.accepted <==> t in s.ran)
              && (forall t :: t in s.accepted <==> Completion(t) in s.posted)
  {
    StartKeeps(n);
    RunKeeps(Start(n), run);
    hide Exec, Legal;
    var s := Exec(Start(n), run);
    if Joined(s) {
      assert s.workers[0].pc.Exited?;
      assert s.started == s.accepted;
      forall p: WorkerPc | p.Running? || p.Finished?
        ensures !IsWith(s, p)
      {
      }
    }
  }

  /** Nothing is accepted after the pool was stopped. */
  lemma {:induction false} NothingAcceptedAfterStop(s: State, run: seq<Step>)
    requires s.stop && Legal(s, run)
    ensures Exec(s, run).stop && Exec(s, run).accepted == s.accepted
    decreases |run|
  {
    if run != [] {
      NothingAcceptedAfterStop(Next(s, run[0]), run[1..]);
    }
  }

  // ---------- Nothing given to the machine is dropped ----------

  /** The tasks offered before the pool is stopped. */
  function Offered(run: seq<Step>): seq<nat> {
    if run == [] || run[0].Stop? then [] else OfferedBy(run[0]) + Offered(run[1..])
  }

  function OfferedBy(step: Step): seq<nat> {
    if step.Enqueue? then [step.task] else []
  }

  /** What the run posts, in order: the tags of output, and nothing for the completion of a task. */
  function Posts(run: seq<Step>): seq<Option<nat>> {
    if run == [] then [] else PostsOf(run[0]) + Posts(run[1..])
  }

  function PostsOf(step: Step): seq<Option<nat>> {
    if step.Emit? || step.ReactorPost? then [Some(step.tag)] else if step.PostCompletion? then [None] else []
  }

  function Tags(items: seq<Item>): seq<Option<nat>> {
    seq(|items|, i requires 0 <= i < |items| => if items[i].Output? then Some(items[i].tag) else None)
  }

  /** The fds scheduled to be flushed: each once until the ready list is taken, as those `waiting` are. */
  function Flushes(run: seq<Step>, waiting: set<int>): seq<int> {
    if run == [] then []
    else if run[0].Swap? then Flushes(run[1..], {})
    else if run[0].Schedule? && run[0].fd >= 0 && run[0].fd !in waiting then
      [run[0].fd] + Flushes(run[1..], waiting + {run[0].fd})
    else Flushes(run[1..], waiting)
  }

  /** The expiries of the timers put into the heap, and of those taken out. */
  function Added(run: seq<Step>): multiset<nat> {
    if run == [] then multiset{} else AddedBy(run[0]) + Added(run[1..])
  }

  function AddedBy(step: Step): multiset<nat> {
    if step.AddTimer? || step.ReactorAddTimer? || step.Rearm? then multiset{step.e} else multiset{}
  }

  function Removed(run: seq<Step>): multiset<nat> {
    if run == [] then multiset{} else RemovedBy(run[0]) + Removed(run[1..])
  }

  function RemovedBy(step: Step): multiset<nat> {
    if step.PopTimer? || step.DropTimer? then multiset{step.e} else multiset{}
  }

  lemma Unfold(s: State, run: seq<Step>)
    requires run != [] && Legal(s, run)
    ensures Enabled(s, run[0]) && Legal(Next(s, run[0]), run[1..])
    ensures Exec(s, run) == Exec(Next(s, run[0]), run[1..])
  {
    hide Enabled, Next;
  }

  lemma TaskIsTaken(s: State, step: Step)
    requires Enabled(s, step)
    ensures Next(s, step).stop == (s.stop || step.Stop?)
    ensures Next(s, step).accepted == s.accepted + if s.stop || step.Stop? then [] else OfferedBy(step)
  {
    hide Wakeup, WaitUntil, NeedsWake;
  }

  lemma {:induction false} TasksAreTaken(s: State, run: seq<Step>)
    requires Legal(s, run)
    ensures Exec(s, run).accepted == s.accepted + if s.stop then [] else Offered(run)
    decreases |run|
  {
    hide Next, Enabled, Legal, OfferedBy;
    if run != [] {
      hide Exec;
      Unfold(s, run);
      TaskIsTaken(s, run[0]);
      TasksAreTaken(Next(s, run[0]), run[1..]);
    }
  }

  lemma PostIsTaken(s: State, step: Step)
    requires Enabled(s, step)
    ensures Tags(Next(s, step).posted) == Tags(s.posted) + PostsOf(step)
  {
    hide Wakeup, WaitUntil, NeedsWake;
    if step.Emit? || step.ReactorPost? {
      assert Next(s, step).posted == s.posted + [Output(step.tag)];
    } else if step.PostCompletion? {
      assert Next(s, step).posted == s.posted + [Completion(s.workers[step.w].pc.task)];
    } else {
      assert Next(s, step).posted == s.posted;
    }
  }

  lemma {:induction false} PostsAreTaken(s: State, run: seq<Step>)
    requires Legal(s, run)
    ensures Tags(Exec(s, run).posted) == Tags(s.posted) + Posts(run)
    decreases |run|
  {
    hide Next, Enabled, Tags, PostsOf;
    if run != [] {
      PostIsTaken(s, run[0]);
      PostsAreTaken(Next(s, run[0]), run[1..]);
    }
  }

  lemma {:induction false} FlushesAreTaken(s: State, run: seq<Step>)
    requires Legal(s, run)
    ensures Exec(s, run).scheduled == s.scheduled + Flushes(run, s.readySet)
    decreases |run|
  {
    if run != [] {
      FlushesAreTaken(Next(s, run[0]), run[1..]);
    }
  }

  lemma HeapAfter(s: State, step: Step)
    requires Enabled(s, step)
    ensures Next(s, step).heap ==
            if step.AddTimer? || step.ReactorAddTimer? || step.Rearm? then s.heap + multiset{step.e}
            else if step.PopTimer? || step.DropTimer? then s.heap - multiset{step.e} else s.heap
    ensures step.PopTimer? || step.DropTimer? ==> step.e in s.heap
  {
    hide Wakeup, WaitUntil, NeedsWake;
  }

  lemma TimerIsTaken(s: State, step: Step)
    requires Enabled(s, step)
    ensures Next(s, step).heap + RemovedBy(step) == s.heap + AddedBy(step)
  {
    hide Next, Enabled;
    HeapAfter(s, step);
  }

  lemma {:induction false} TimersAreTaken(s: State, run: seq<Step>)
    requires Legal(s, run)
    ensures Exec(s, run).heap + Removed(run) == s.heap + Added(run)
    decreases |run|
  {
    hide Next, Enabled, AddedBy, RemovedBy;
    if run != [] {
      var next := Next(s, run[0]);
      TimerIsTaken(s, run[0]);
      TimersAreTaken(next, run[1..]);
      Balance(Exec(next, run[1..]).heap, Removed(run[1..]), next.heap, Added(run[1..]),
              RemovedBy(run[0]), s.heap, AddedBy(run[0]));
    }
  }

  lemma Balance(end: multiset<nat>, removed: multiset<nat>, heap: multiset<nat>, added: multiset<nat>,
                taken: multiset<nat>, start: multiset<nat>, put: multiset<nat>)
    requires end + removed == heap + added && heap + taken == start + put
    ensures end + (taken + removed) == start + (put + added)
  {
    assert end + (taken + removed) == (end + removed) + taken;
    assert start + (put + added) == (start + put) + added;
  }

  /**
   In every interleaving what the steps hand over is what the machine has: the work offered before the
   stop, the outputs and completions posted, the fds scheduled and the timers added, and it takes out
   of the heap only what is popped or dropped.
   */
  lemma NothingIsDropped(n: nat, run: seq<Step>)
    requires Legal(Start(n), run)
    ensures var s := Exec(Start(n), run);
            && s.accepted == Offered(run)
            && Tags(s.posted) == Posts(run)
            && s.scheduled == Flushes(run, {})
            && s.heap + Removed(run) == Added(run)
  {
    hide Legal, Exec, Offered, Posts, Flushes, Added, Removed;
    TasksAreTaken(Start(n), run);
    PostsAreTaken(Start(n), run);
    FlushesAreTaken(Start(n), run);
    TimersAreTaken(Start(n), run);
    assert Tags([]) == [];
    assert multiset{} + Added(run) == Added(run);
  }

  // ---------- Progress ----------

  predicate IsWorkerStep(step: Step) {
    step.Take? || step.Return? || step.PostCompletion? || step.Exit? || step.WorkerWake?
  }

  /** How many steps a worker is away from leaving, without further tasks. */
  function Ahead(worker: Worker): nat {
    (match worker.pc
     case Idle => 1
     case Running(_) => 4
     case Finished(_) => 3
     case Exited => 0) + if worker.owes then 1 else 0
  }

  function AllAhead(workers: seq<Worker>): nat {
    if workers == [] then 0 else Ahead(workers[0]) + AllAhead(workers[1..])
  }

  /** How many steps are left until a stopped pool can be joined. */
  function Left(s: State): nat {
    4 * |s.tasks| + AllAhead(s.workers)
  }

  function WorkerSteps(run: seq<Step>): nat {
    if run == [] then 0 else (if IsWorkerStep(run[0]) then 1 else 0) + WorkerSteps(run[1..])
  }

  function Emits(run: seq<Step>): nat {
    if run == [] then 0 else (if run[0].Emit? then 1 else 0) + Emits(run[1..])
  }

  lemma {:induction false} AheadUpdate(workers: seq<Worker>, w: nat, worker: Worker)
    requires w < |workers|
    ensures AllAhead(workers[w := worker]) + Ahead(workers[w]) == AllAhead(workers) + Ahead(worker)
  {
    hide Ahead;
    if w == 0 {
      assert workers[0 := worker][1..] == workers[1..];
    } else {
      AheadUpdate(workers[1..], w - 1, worker);
      assert workers[w := worker][1..] == workers[1..][w - 1 := worker];
    }
  }

  predicate MovesWorkers(step: Step) {
    IsWorkerStep(step) || step.Emit?
  }

  lemma WorkerStepShortens(s: State, step: Step)
    requires s.stop && Enabled(s, step) && MovesWorkers(step)
    ensures Next(s, step).stop
    ensures Left(Next(s, step)) + (if IsWorkerStep(step) then 1 else 0) <= Left(s) + if step.Emit? then 1 else 0
  {
    hide AllAhead;
    AheadUpdate(s.workers, step.w, Next(s, step).workers[step.w]);
  }

  lemma OtherStepsLeaveWorkers(s: State, step: Step)
    requires s.stop && Enabled(s, step) && !MovesWorkers(step)
    ensures var next := Next(s, step); next.stop && next.tasks == s.tasks && next.workers == s.workers
  {
  }

  lemma {:induction false} PoolDrains(s: State, run: seq<Step>)
    requires s.stop && Legal(s, run)
    ensures WorkerSteps(run) + Left(Exec(s, run)) <= Left(s) + Emits(run) && Exec(s, run).stop
    decreases |run|
  {
    hide Next, Enabled, Left, MovesWorkers, IsWorkerStep;
    if run != [] {
      if MovesWorkers(run[0]) {
        WorkerStepShortens(s, run[0]);
      } else {
        OtherStepsLeaveWorkers(s, run[0]);
        SameLeft(s, run[0]);
      }
      PoolDrains(Next(s, run[0]), run[1..]);
    }
  }

  lemma SameLeft(s: State, step: Step)
    requires s.stop && Enabled(s, step) && !MovesWorkers(step)
    ensures Left(Next(s, step)) == Left(s) && !IsWorkerStep(step) && !step.Emit?
  {
    hide Next, Enabled;
    OtherStepsLeaveWorkers(s, step);
  }

  lemma WorkersCanMove(s: State)
    requires s.stop
    ensures s.workers != [] && !Joined(s) ==> exists step :: IsWorkerStep(step) && Enabled(s, step)
  {
    if s.workers != [] && !Joined(s) {
      var w :| 0 <= w < |s.workers| && !s.workers[w].pc.Exited?;
      var step :=
        if s.workers[w].owes then WorkerWake(w)
        else
          match s.workers[w].pc
          case Idle => if s.tasks == [] then Exit(w) else Take(w)
          case Running(_) => Return(w)
          case _ => PostCompletion(w);
      assert IsWorkerStep(step) && Enabled(s, step);
    }
  }

  lemma {:induction false} AheadIsBounded(workers: seq<Worker>)
    ensures AllAhead(workers) <= 5 * |workers|
  {
    if workers != [] {
      AheadIsBounded(workers[1..]);
    }
  }

  /**
   A stopped pool comes to its join: whatever happens, its workers take at most four steps for each queued
   task, five for each worker and one for each output; and until all have left one of them can take a step.
   */
  lemma StoppedPoolDrains(s: State, run: seq<Step>)
    requires s.stop && Legal(s, run)
    ensures WorkerSteps(run) <= 4 * |s.tasks| + 5 * |s.workers| + Emits(run)
    ensures var end := Exec(s, run);
            end.workers != [] && !Joined(end) ==> exists step :: IsWorkerStep(step) && Enabled(end, step)
  {
    hide Legal, Exec, Enabled, IsWorkerStep, Joined;
    PoolDrains(s, run);
    AheadIsBounded(s.workers);
    WorkersCanMove(Exec(s, run));
  }

  /** The steps of one turn of the reactor, from the end of a wait to the next. */
  predicate IsTurnStep(step: Step) {
    step.ReadEventfd? || step.ClearDone? || step.Swap? || step.EnterTimers? || step.ReactorWake?
    || step.EnterDrain? || step.Execute? || step.DrainDone? || step.Compute?
  }

  /** How many of them are left, if nothing more is given to the reactor. */
  function Distance(s: State): nat {
    if s.phase.Waiting? then 0
    else
      Rank(s.phase) + |s.completions| + (if s.reactorOwes then 2 else 0) + if s.eventfd > 0 then 1 else 0
  }

  function Rank(phase: Phase): nat {
    match phase
    case Handling(true) => 7
    case Clearing => 6
    case Swapping => 5
    case Handling(false) => 4
    case TimerPass => 3
    case Draining => 2
    case Computing => 1
    case Waiting(_, _) => 0
  }

  /** By how many steps what threads and callbacks do can prolong the turn. */
  function Gift(step: Step): nat {
    match step
    case ReactorPost(_) => 3
    case Schedule(_) => 2
    case ReactorAddTimer(_) => 2
    case Emit(_, _) => 1
    case PostCompletion(_) => 1
    case WorkerWake(_) => 1
    case TimerWake => 1
    case _ => 0
  }

  function Gifts(run: seq<Step>): nat {
    if run == [] then 0 else Gift(run[0]) + Gifts(run[1..])
  }

  function TurnSteps(run: seq<Step>): nat {
    if run == [] then 0 else (if IsTurnStep(run[0]) then 1 else 0) + TurnSteps(run[1..])
  }

  lemma TurnStepShortens(s: State, step: Step)
    requires ReadyNoticed(s) && Enabled(s, step) && IsTurnStep(step)
    ensures Distance(Next(s, step)) < Distance(s)
  {
    ReadyWhenIdle(s);
    hide WaitUntil, NeedsWake, IsMin, ReadyNoticed;
  }

  lemma OtherStepProlongs(s: State, step: Step)
    requires Enabled(s, step) && !IsTurnStep(step) && !step.LeaveWait? && !step.Interrupted?
    ensures Distance(Next(s, step)) <= Distance(s) + Gift(step)
  {
    hide WaitUntil, NeedsWake, IsMin;
  }

  lemma {:induction false} TurnIsBounded(s: State, run: seq<Step>)
    requires ReadyNoticed(s) && Legal(s, run)
    requires forall step | step in run :: !step.LeaveWait? && !step.Interrupted?
    ensures TurnSteps(run) + Distance(Exec(s, run)) <= Distance(s) + Gifts(run)
    decreases |run|
  {
    hide Next, Enabled, Distance, Gift, IsTurnStep, ReadyNoticed;
    if run != [] {
      assert run[0] in run;
      if IsTurnStep(run[0]) {
        TurnStepShortens(s, run[0]);
      } else {
        OtherStepProlongs(s, run[0]);
      }
      ReadyStaysNoticed(s, run[0]);
      TurnIsBounded(Next(s, run[0]), run[1..]);
    }
  }

  /** The reactor handles the eventfd only while that is readable. */
  predicate HandlesReadable(s: State) {
    s.phase == Handling(true) ==> s.eventfd > 0
  }

  lemma {:induction false} HandlesReadableAlways(s: State, run: seq<Step>)
    requires HandlesReadable(s) && Legal(s, run)
    ensures HandlesReadable(Exec(s, run))
    decreases |run|
  {
    if run != [] {
      HandlesReadableAlways(Next(s, run[0]), run[1..]);
    }
  }

  lemma {:induction false} MinExists(heap: multiset<nat>)
    requires heap != multiset{}
    ensures exists e :: IsMin(heap, e)
    decreases |heap|
  {
    var e :| e in heap;
    var others := heap - multiset{e};
    assert heap == others + multiset{e};
    if others == multiset{} {
      assert IsMin(heap, e);
    } else {
      MinExists(others);
      var m :| IsMin(others, m);
      assert IsMin(heap, if e < m then e else m);
    }
  }

  lemma ReactorCanMove(s: State)
    requires ReadyNoticed(s) && HandlesReadable(s)
    ensures exists step :: (IsTurnStep(step) || step.LeaveWait?) && Enabled(s, step)
  {
    hide ReadyNoticed, IsMin;
    ReadyWhenIdle(s);
    if s.reactorOwes {
      assert IsTurnStep(ReactorWake) && Enabled(s, ReactorWake);
    } else if s.phase.Computing? && s.heap != multiset{} {
      MinExists(s.heap);
      var e :| IsMin(s.heap, e);
      assert IsTurnStep(Compute(Some(e), 0)) && Enabled(s, Compute(Some(e), 0));
    } else {
      var step :=
        match s.phase
        case Computing => Compute(None, 0)
        case Waiting(_, _) => LeaveWait
        case Handling(wakeEvent) => if wakeEvent then ReadEventfd else EnterTimers
        case Clearing => if s.eventfd > 0 then ReadEventfd else ClearDone
        case Swapping => Swap
        case TimerPass => EnterDrain
        case Draining => if s.completions == [] then DrainDone else Execute;
      assert (IsTurnStep(step) || step.LeaveWait?) && Enabled(s, step);
    }
  }

  lemma ReadyWhenIdle(s: State)
    requires ReadyNoticed(s)
    ensures MayBlock(s) || s.phase.Clearing? || s.phase.Swapping? ==> !s.reactorOwes
  {
  }

  /**
   The reactor comes back to its wait: in every reachable state its next step is possible, and until it
   waits again it takes at most one step for each completion, ten for the turn itself, and those that
   threads and callbacks give it meanwhile.
   */
  lemma TurnsEnd(n: nat, before: seq<Step>, run: seq<Step>)
    requires Legal(Start(n), before) && Legal(Exec(Start(n), before), run)
    requires forall step | step in run :: !step.LeaveWait? && !step.Interrupted?
    ensures var s := Exec(Start(n), before);
            && TurnSteps(run) <= 10 + |s.completions| + Gifts(run)
            && exists step :: (IsTurnStep(step) || step.LeaveWait?) && Enabled(s, step)
  {
    StartKeeps(n);
    HandlesReadableAlways(Start(n), before);
    RunKeeps(Start(n), before);
    hide Legal, Exec, Inv, Enabled, IsTurnStep, ReadyNoticed, HandlesReadable, Distance;
    var s := Exec(Start(n), before);
    DistanceIsBounded(s);
    InvIsReady(s);
    TurnIsBounded(s, run);
    ReactorCanMove(s);
  }

  lemma DistanceIsBounded(s: State)
    ensures Distance(s) <= 10 + |s.completions|
  {
  }

  lemma InvIsReady(s: State)
    requires Inv(s)
    ensures ReadyNoticed(s)
  {
    hide ReadyNoticed;
  }

  /** The reactor never sleeps past a timer, as long as the timeouts it computes fit an int. */
  lemma {:induction false} NeverOversleeps(s: State, run: seq<Step>)
    requires NoOversleep(s) && Legal(s, run) && forall step | step in run :: TimeoutFits(step)
    ensures NoOversleep(Exec(s, run))
    decreases |run|
  {
    if run != [] {
      assert run[0] in run;
      NoOversleepStays(s, run[0]);
      assert forall step | step in run[1..] :: step in run;
      NeverOversleeps(Next(s, run[0]), run[1..]);
    }
  }

  lemma Prepend(s: State, step: Step, run: seq<Step>)
    requires Enabled(s, step) && Legal(Next(s, step), run)
    ensures Legal(s, [step] + run) && Exec(s, [step] + run) == Exec(Next(s, step), run)
  {
    assert ([step] + run)[1..] == run;
  }

  /** A turn of the reactor that a wakeup began, up to its next wait, when nothing else is to be done. */
  function IdleTurn(top: Option<nat>, now: nat): seq<Step> {
    [LeaveWait] + ([ReadEventfd] + ([ClearDone] + ([Swap]
    + ([EnterTimers] + ([EnterDrain] + ([DrainDone] + [Compute(top, now)]))))))
  }

  lemma NoSteps(s: State)
    ensures Legal(s, []) && Exec(s, []) == s
  {
  }

  lemma ComputeWaits(s: State, e: nat, now: nat)
    requires s.phase == Computing && !s.reactorOwes && s.heap == multiset{e}
    ensures var step := Compute(Some(e), now);
            Enabled(s, step) && Next(s, step) == s.(phase := Waiting(WaitUntil(Some(e), now), now))
  {
    assert IsMin(s.heap, e);
  }

  /** Nothing expired, and no completion is there to drain. */
  lemma IdleSteps(s: State)
    requires s.phase == Handling(false) && !s.reactorOwes && s.completions == []
    ensures Enabled(s, EnterTimers) && Next(s, EnterTimers) == s.(phase := TimerPass)
    ensures var t := s.(phase := TimerPass); Enabled(t, EnterDrain) && Next(t, EnterDrain) == s.(phase := Draining)
    ensures var d := s.(phase := Draining); Enabled(d, DrainDone) && Next(d, DrainDone) == s.(phase := Computing)
  {
  }

  lemma EndOfIdleTurn(s: State, e: nat, now: nat)
    requires s.phase == Handling(false) && !s.reactorOwes && s.completions == [] && s.heap == multiset{e}
    ensures var run := [EnterTimers] + ([EnterDrain] + ([DrainDone] + [Compute(Some(e), now)]));
            Legal(s, run) && Exec(s, run) == s.(phase := Waiting(WaitUntil(Some(e), now), now))
  {
    hide Legal, Exec, Enabled, Next, WaitUntil;
    var compute := Compute(Some(e), now);
    IdleSteps(s);
    ComputeWaits(s.(phase := Computing), e, now);
    NoSteps(s.(phase := Waiting(WaitUntil(Some(e), now), now)));
    Prepend(s.(phase := Computing), compute, []);
    assert [compute] + [] == [compute];
    Prepend(s.(phase := Draining), DrainDone, [compute]);
    Prepend(s.(phase := TimerPass), EnterDrain, [DrainDone] + [compute]);
    Prepend(s, EnterTimers, [EnterDrain] + ([DrainDone] + [compute]));
  }

  lemma IdleTurnWaits(s: State, e: nat, now: nat)
    requires s.phase.Waiting? && !s.reactorOwes && s.completions == [] && s.readyFds == [] && s.readySet == {}
    requires s.heap == multiset{e} && s.eventfd > 0
    ensures Legal(s, IdleTurn(Some(e), now))
    ensures Exec(s, IdleTurn(Some(e), now)) == s.(eventfd := 0, phase := Waiting(WaitUntil(Some(e), now), now))
  {
    hide Legal, Exec;
    var read := s.(eventfd := 0);
    var rest := [EnterTimers] + ([EnterDrain] + ([DrainDone] + [Compute(Some(e), now)]));
    assert s.flushed + [] == s.flushed;
    EndOfIdleTurn(read.(phase := Handling(false)), e, now);
    Prepend(read.(phase := Swapping), Swap, rest);
    Prepend(read.(phase := Clearing), ClearDone, [Swap] + rest);
    Prepend(s.(phase := Handling(true)), ReadEventfd, [ClearDone] + ([Swap] + rest));
    Prepend(s, LeaveWait, [ReadEventfd] + ([ClearDone] + ([Swap] + rest)));
  }

  /** A thread adds the timer `e` and wakes the reactor, which looks again and waits. */
  function AddAndWait(e: nat): seq<Step> {
    [AddTimer(e)] + ([TimerWake] + ([Compute(Some(e), 0)] + IdleTurn(Some(e), 0)))
  }

  lemma AddedIsWaitedFor(e: nat)
    ensures Legal(Start(1), AddAndWait(e))
    ensures Exec(Start(1), AddAndWait(e)) == Start(1).(heap := multiset{e}, phase := Waiting(WaitUntil(Some(e), 0), 0))
  {
    var start := Start(1);
    var added := start.(heap := multiset{e}, timerOwes := 1);
    var woken := start.(heap := multiset{e}, eventfd := 1);
    assert multiset{} + multiset{e} == multiset{e} && IsMin(multiset{e}, e);
    IdleTurnWaits(woken.(phase := Waiting(WaitUntil(Some(e), 0), 0)), e, 0);
    Prepend(woken, Compute(Some(e), 0), IdleTurn(Some(e), 0));
    Prepend(added, TimerWake, [Compute(Some(e), 0)] + IdleTurn(Some(e), 0));
    Prepend(start, AddTimer(e), [TimerWake] + ([Compute(Some(e), 0)] + IdleTurn(Some(e), 0)));
  }

  /**
   Cut to an int, a timeout of 2^31 ms is negative. So the gateway gets into a state in which it sleeps
   past a timer: for a timer added at time 0 that happens exactly when its timeout does not fit an int.
   */
  lemma LongTimeoutOversleeps(e: nat)
    ensures Legal(Start(1), AddAndWait(e))
    ensures NoOversleep(Exec(Start(1), AddAndWait(e))) <==> e % TWO32 < TWO31
  {
    AddedIsWaitedFor(e);
    TimeoutIsHarmless(e);
    assert e in multiset{e};
  }
}
