/**
 ThreadPool (src/thread_pool.cpp, include/thread_pool.h) as a step relation over
 every interleaving of its workers, its submitters, one wait_all caller and
 shutdown.  A step is one read or write of shared state, or a mutex or condition
 variable operation; `stop` and `active_tasks` are atomics that may change while
 another thread holds the mutex.
*/
module ThreadPool {

  // A submitted std::function; an empty one is not callable.
  datatype Task = Task(body: int, callable: bool)

  datatype WorkerPc =
    | WantLock             // at unique_lock, or woken and re-acquiring in cv.wait
    | ReadStop             // lock held: about to read stop in the wait predicate
    | ReadEmpty            // lock held: read stop as false, about to test the queue
    | Blocked              // in cv.wait, lock released
    | Decide               // lock held: predicate was true, about to read stop again
    | DecideEmpty          // lock held: read stop as true, about to test the queue
    | Take                 // lock held: about to pop
    | Running(at: nat)     // lock released: running what was started at-th
    | Exited

  datatype SubmitterPc =
    | Idle
    | Locked(task: Task)   // lock held: about to read stop
    | Passed(task: Task)   // lock held: read stop as false, about to push
    | Notifying            // pushed and unlocked: about to notify_one
    | Rejected             // submit threw

  datatype WaiterPc = Asleep | WaitLocked | SawEmpty | Left

  datatype Owner = Nobody | ByWorker(w: nat) | BySubmitter(j: nat) | ByWaiter

  /**
   `accepted` logs every push, `started` every pop, in order; `finished` holds
   the places in `started` whose task has returned or thrown.
  */
  datatype State = State(
    queue: seq<Task>, stop: bool, active: int, mutex: Owner,
    workers: seq<WorkerPc>, submitters: seq<SubmitterPc>, waiter: WaiterPc,
    accepted: seq<Task>, started: seq<Task>, finished: set<nat>)

  datatype Action =
    | Acquire(w: nat)
    | TestStop(w: nat)
    | TestEmpty(w: nat)
    | Spurious(w: nat)
    | RetestStop(w: nat)
    | RetestEmpty(w: nat)
    | Pop(w: nat)
    | Finish(w: nat)
    | SubmitLock(j: nat, task: Task)
    | SubmitCheck(j: nat)
    | SubmitPush(j: nat)
    | SubmitNotify(j: nat, w: nat)
    | WaitLock
    | WaitTestEmpty
    | WaitTestActive
    | StoreStop
    | NotifyAll

  ghost predicate Init(s: State) {
    && s.queue == [] && !s.stop && s.active == 0 && s.mutex == Nobody && s.waiter == Asleep
    && s.accepted == [] && s.started == [] && s.finished == {}
    && (forall w :: 0 <= w < |s.workers| ==> s.workers[w] == WantLock)
    && (forall j :: 0 <= j < |s.submitters| ==> s.submitters[j] == Idle)
  }

  function Set(s: State, w: nat, pc: WorkerPc, mutex: Owner): State
    requires w < |s.workers|
  {
    s.(workers := s.workers[w := pc], mutex := mutex)
  }

  function SetSubmitter(s: State, j: nat, pc: SubmitterPc, mutex: Owner): State
    requires j < |s.submitters|
  {
    s.(submitters := s.submitters[j := pc], mutex := mutex)
  }

  function Woken(pc: WorkerPc): WorkerPc { if pc == Blocked then WantLock else pc }

  predicate At(s: State, w: nat, pc: WorkerPc) { w < |s.workers| && s.workers[w] == pc }

  ghost predicate Next(s: State, a: Action, t: State) {
    match a
    case Acquire(w) =>
      At(s, w, WantLock) && s.mutex == Nobody && t == Set(s, w, ReadStop, ByWorker(w))
    case TestStop(w) =>
      At(s, w, ReadStop) && t == Set(s, w, if s.stop then Decide else ReadEmpty, s.mutex)
    case TestEmpty(w) =>
      && At(s, w, ReadEmpty)
      && t == if s.queue == [] then Set(s, w, Blocked, Nobody) else Set(s, w, Decide, s.mutex)
    case Spurious(w) =>
      At(s, w, Blocked) && t == Set(s, w, WantLock, s.mutex)
    case RetestStop(w) =>
      At(s, w, Decide) && t == Set(s, w, if s.stop then DecideEmpty else Take, s.mutex)
    case RetestEmpty(w) =>
      && At(s, w, DecideEmpty)
      && t == if s.queue == [] then Set(s, w, Exited, Nobody) else Set(s, w, Take, s.mutex)
    case Pop(w) =>
      && At(s, w, Take)
      && t == if s.queue == [] then Set(s, w, WantLock, Nobody)
              else Set(s, w, if s.queue[0].callable then Running(|s.started|) else WantLock, Nobody)
                   .(queue := s.queue[1..], active := s.active + 1, started := s.started + [s.queue[0]])
    case Finish(w) =>
      && w < |s.workers| && s.workers[w].Running?
      && t == Set(s, w, WantLock, s.mutex)
              .(active := s.active - 1, finished := s.finished + {s.workers[w].at})
    case SubmitLock(j, task) =>
      && j < |s.submitters| && (s.submitters[j].Idle? || s.submitters[j].Rejected?) && s.mutex == Nobody
      && t == SetSubmitter(s, j, Locked(task), BySubmitter(j))
    case SubmitCheck(j) =>
      && j < |s.submitters| && s.submitters[j].Locked?
      && t == if s.stop then SetSubmitter(s, j, Rejected, Nobody)
              else SetSubmitter(s, j, Passed(s.submitters[j].task), s.mutex)
    case SubmitPush(j) =>
      && j < |s.submitters| && s.submitters[j].Passed?
      && var task := s.submitters[j].task;
         t == SetSubmitter(s, j, Notifying, Nobody).(queue := s.queue + [task], accepted := s.accepted + [task])
    case SubmitNotify(j, w) =>
      && j < |s.submitters| && s.submitters[j].Notifying?
      && var told := SetSubmitter(s, j, Idle, s.mutex);
         if At(s, w, Blocked) then t == told.(workers := s.workers[w := WantLock])
         else t == told && forall v :: 0 <= v < |s.workers| ==> s.workers[v] != Blocked
    case WaitLock =>
      s.waiter == Asleep && s.mutex == Nobody && t == s.(waiter := WaitLocked, mutex := ByWaiter)
    case WaitTestEmpty =>
      && s.waiter == WaitLocked
      && t == if s.queue == [] then s.(waiter := SawEmpty) else s.(waiter := Asleep, mutex := Nobody)
    case WaitTestActive =>
      && s.waiter == SawEmpty
      && t == if s.active == 0 then s.(waiter := Left, mutex := Nobody) else s.(waiter := Asleep, mutex := Nobody)
    case StoreStop =>
      t == s.(stop := true)
    case NotifyAll =>
      s.stop && t == s.(workers := seq(|s.workers|, w requires 0 <= w < |s.workers| => Woken(s.workers[w])))
  }

  // A run: each action with the state it led to.
  datatype Trace = Start(first: State) | Then(before: Trace, a: Action, after: State)

  function Last(t: Trace): State { if t.Start? then t.first else t.after }

  ghost predicate Possible(t: Trace) {
    match t
    case Start(s) => Init(s)
    case Then(before, a, after) => Possible(before) && Next(Last(before), a, after)
  }

  // ---------------------------------------------------------------------
  // Counting threads
  // ---------------------------------------------------------------------

  function Count<T>(p: T -> bool, xs: seq<T>, n: nat): (k: nat)
    requires n <= |xs|
    ensures k <= n
  {
    if n == 0 then 0 else Count(p, xs, n - 1) + if p(xs[n - 1]) then 1 else 0
  }

  lemma {:induction false} CountUpdate<T>(p: T -> bool, xs: seq<T>, i: nat, x: T, n: nat)
    requires i < |xs| && n <= |xs|
    ensures Count(p, xs[i := x], n)
            == Count(p, xs, n) + if i < n then (if p(x) then 1 else 0) - (if p(xs[i]) then 1 else 0) else 0
  {
    if n > 0 { CountUpdate(p, xs, i, x, n - 1); }
  }

  lemma {:induction false} CountAll<T>(p: T -> bool, xs: seq<T>, n: nat)
    requires n <= |xs| && forall i :: 0 <= i < |xs| ==> p(xs[i])
    ensures Count(p, xs, n) == n
  {
    if n > 0 { CountAll(p, xs, n - 1); }
  }

  lemma {:induction false} CountNone<T>(p: T -> bool, xs: seq<T>, n: nat)
    requires n <= |xs|
    ensures Count(p, xs, n) == 0 <==> forall i :: 0 <= i < n ==> !p(xs[i])
  {
    if n > 0 { CountNone(p, xs, n - 1); }
  }

  predicate Busy(pc: WorkerPc) { pc.Running? }

  predicate Awake(pc: WorkerPc) { !pc.Blocked? && !pc.Exited? }

  predicate Telling(pc: SubmitterPc) { pc.Notifying? }

  predicate Empty(task: Task) { !task.callable }

  // Workers running a task, workers that will look at the queue again, pending
  // notify_one calls, and started tasks that were empty.
  function BusyCount(s: State): nat { Count(Busy, s.workers, |s.workers|) }

  function AwakeCount(s: State): nat { Count(Awake, s.workers, |s.workers|) }

  function TellingCount(s: State): nat { Count(Telling, s.submitters, |s.submitters|) }

  function EmptyStarted(s: State): nat { Count(Empty, s.started, |s.started|) }

  function Min(a: int, b: int): int { if a < b then a else b }

  // ---------------------------------------------------------------------
  // The invariant
  // ---------------------------------------------------------------------

  predicate HoldsLock(pc: WorkerPc) {
    pc.ReadStop? || pc.ReadEmpty? || pc.Decide? || pc.DecideEmpty? || pc.Take?
  }

  ghost predicate Exclusive(s: State) {
    && (forall w :: 0 <= w < |s.workers| ==> (HoldsLock(s.workers[w]) <==> s.mutex == ByWorker(w)))
    && (forall j :: 0 <= j < |s.submitters| ==>
          (s.submitters[j].Locked? || s.submitters[j].Passed? <==> s.mutex == BySubmitter(j)))
    && (s.waiter.WaitLocked? || s.waiter.SawEmpty? <==> s.mutex == ByWaiter)
  }

  // Tasks start in the order they were accepted; what is left is the queue.
  ghost predicate Fifo(s: State) { s.started + s.queue == s.accepted }

  // What each thread has read under the lock is still true.
  ghost predicate Informed(s: State) {
    && (forall w :: 0 <= w < |s.workers| ==>
          && (s.workers[w].Decide? ==> s.stop || s.queue != [])
          && (s.workers[w].DecideEmpty? ==> s.stop)
          && (s.workers[w].Take? ==> s.queue != []))
    && (s.waiter.SawEmpty? ==> s.queue == [])
  }

  // Each started task is, exactly one of: running in one worker, finished, empty.
  ghost predicate OnceEach(s: State) {
    && (forall w :: 0 <= w < |s.workers| && s.workers[w].Running? ==>
          s.workers[w].at < |s.started| && s.started[s.workers[w].at].callable && s.workers[w].at !in s.finished)
    && (forall v, w :: 0 <= v < w < |s.workers| && s.workers[v].Running? && s.workers[w].Running? ==>
          s.workers[v].at != s.workers[w].at)
    && (forall k :: k in s.finished ==> k < |s.started| && s.started[k].callable)
    && (forall k :: 0 <= k < |s.started| && s.started[k].callable && k !in s.finished ==> IsRunning(s, k))
  }

  ghost predicate IsRunning(s: State, k: nat) {
    exists w :: 0 <= w < |s.workers| && s.workers[w] == Running(k)
  }

  // An empty task is counted in by the pop and never counted out.
  ghost predicate ActiveExact(s: State) { s.active == BusyCount(s) + EmptyStarted(s) }

  // No worker leaves before the queue is empty for good.
  ghost predicate ExitLate(s: State) {
    forall w :: 0 <= w < |s.workers| && s.workers[w].Exited? ==>
      s.stop && s.queue == [] && forall j :: 0 <= j < |s.submitters| ==> !s.submitters[j].Passed?
  }

  // Enough threads are on their way for what waits.
  ghost predicate NoneForgotten(s: State) {
    !s.stop ==> Min(|s.queue|, |s.workers|) <= AwakeCount(s) + TellingCount(s)
  }

  ghost predicate Inv(s: State) {
    && Exclusive(s) && Fifo(s) && Informed(s) && OnceEach(s) && ActiveExact(s) && ExitLate(s) && NoneForgotten(s)
  }

  lemma InitInv(s: State)
    requires Init(s)
    ensures Inv(s)
  {
    CountNone(Busy, s.workers, |s.workers|);
  }

  lemma ExclusiveKept(s: State, a: Action, t: State)
    requires Exclusive(s) && Next(s, a, t)
    ensures Exclusive(t)
  {
  }

  lemma FifoKept(s: State, a: Action, t: State)
    requires Fifo(s) && Next(s, a, t)
    ensures Fifo(t)
  {
    if a.Pop? && s.queue != [] { assert s.queue == [s.queue[0]] + s.queue[1..]; }
  }

  lemma InformedKept(s: State, a: Action, t: State)
    requires Exclusive(s) && Informed(s) && Next(s, a, t)
    ensures Informed(t)
  {
  }

  // Only Pop and Finish change which tasks are running.
  lemma OthersRunSame(s: State, a: Action, t: State)
    requires Next(s, a, t) && !a.Pop? && !a.Finish?
    ensures |t.workers| == |s.workers| && t.started == s.started && t.finished == s.finished && t.active == s.active
    ensures forall w :: 0 <= w < |s.workers| && (s.workers[w].Running? || t.workers[w].Running?) ==>
              t.workers[w] == s.workers[w]
  {
  }

  lemma OnceEachPop(s: State, w: nat, t: State)
    requires OnceEach(s) && Next(s, Pop(w), t)
    ensures OnceEach(t)
  {
    forall k | 0 <= k < |t.started| && t.started[k].callable && k !in t.finished
      ensures IsRunning(t, k)
    {
      if k < |s.started| {
        assert IsRunning(s, k);
        var v :| 0 <= v < |s.workers| && s.workers[v] == Running(k);
        assert t.workers[v] == Running(k);
      } else {
        assert t.workers[w] == Running(k);
      }
    }
  }

  lemma OnceEachFinish(s: State, w: nat, t: State)
    requires OnceEach(s) && Next(s, Finish(w), t)
    ensures OnceEach(t)
  {
    forall k | 0 <= k < |t.started| && t.started[k].callable && k !in t.finished
      ensures IsRunning(t, k)
    {
      assert IsRunning(s, k);
      var v :| 0 <= v < |s.workers| && s.workers[v] == Running(k);
      assert t.workers[v] == Running(k);
    }
  }

  lemma OnceEachKept(s: State, a: Action, t: State)
    requires OnceEach(s) && Next(s, a, t)
    ensures OnceEach(t)
  {
    if a.Pop? {
      OnceEachPop(s, a.w, t);
    } else if a.Finish? {
      OnceEachFinish(s, a.w, t);
    } else {
      OthersRunSame(s, a, t);
      forall k | 0 <= k < |t.started| && t.started[k].callable && k !in t.finished
        ensures IsRunning(t, k)
      {
        assert IsRunning(s, k);
        var v :| 0 <= v < |s.workers| && s.workers[v] == Running(k);
        assert t.workers[v] == Running(k);
      }
    }
  }

  lemma ActiveKept(s: State, a: Action, t: State)
    requires ActiveExact(s) && Next(s, a, t)
    ensures ActiveExact(t)
  {
    if a.Pop? {
      CountUpdate(Busy, s.workers, a.w, t.workers[a.w], |s.workers|);
      if s.queue != [] { CountPrefix(Empty, s.started, s.queue[0], |s.started|); }
    } else if a.Finish? {
      CountUpdate(Busy, s.workers, a.w, t.workers[a.w], |s.workers|);
    } else {
      OthersRunSame(s, a, t);
      CountSame(Busy, s.workers, t.workers, |s.workers|);
    }
  }

  lemma {:induction false} CountPrefix<T>(p: T -> bool, xs: seq<T>, x: T, n: nat)
    requires n <= |xs|
    ensures Count(p, xs + [x], n) == Count(p, xs, n)
  {
    if n > 0 { CountPrefix(p, xs, x, n - 1); }
  }

  lemma {:induction false} CountSame<T>(p: T -> bool, xs: seq<T>, ys: seq<T>, n: nat)
    requires n <= |xs| == |ys| && forall i :: 0 <= i < n ==> p(xs[i]) == p(ys[i])
    ensures Count(p, xs, n) == Count(p, ys, n)
  {
    if n > 0 { CountSame(p, xs, ys, n - 1); }
  }

  lemma ExitLateKept(s: State, a: Action, t: State)
    requires Exclusive(s) && Informed(s) && ExitLate(s) && Next(s, a, t)
    ensures ExitLate(t)
  {
  }

  // A step by worker w moves no other thread.
  predicate WorkerStep(a: Action) {
    !a.SubmitLock? && !a.SubmitCheck? && !a.SubmitPush? && !a.SubmitNotify?
    && !a.WaitLock? && !a.WaitTestEmpty? && !a.WaitTestActive? && !a.StoreStop? && !a.NotifyAll?
  }

  lemma WorkerStepShape(s: State, a: Action, t: State)
    requires Next(s, a, t) && WorkerStep(a)
    ensures a.w < |s.workers| && |t.workers| == |s.workers| && t.workers == s.workers[a.w := t.workers[a.w]]
    ensures t.submitters == s.submitters && t.stop == s.stop && |t.queue| <= |s.queue|
    ensures Awake(t.workers[a.w]) || s.queue == []
  {
  }

  lemma NotifyWakes(s: State, j: nat, w: nat, t: State)
    requires NoneForgotten(s) && ExitLate(s) && Next(s, SubmitNotify(j, w), t)
    ensures NoneForgotten(t)
  {
    CountUpdate(Telling, s.submitters, j, Idle, |s.submitters|);
    if At(s, w, Blocked) {
      CountUpdate(Awake, s.workers, w, WantLock, |s.workers|);
    } else if !s.stop {
      CountAll(Awake, s.workers, |s.workers|);
    }
  }

  lemma NoneForgottenKept(s: State, a: Action, t: State)
    requires ExitLate(s) && NoneForgotten(s) && Next(s, a, t)
    ensures NoneForgotten(t)
  {
    if WorkerStep(a) {
      WorkerStepShape(s, a, t);
      CountUpdate(Awake, s.workers, a.w, t.workers[a.w], |s.workers|);
    } else {
      match a
      case SubmitNotify(j, w) => NotifyWakes(s, j, w, t);
      case SubmitLock(j, task) => CountUpdate(Telling, s.submitters, j, t.submitters[j], |s.submitters|);
      case SubmitCheck(j) => CountUpdate(Telling, s.submitters, j, t.submitters[j], |s.submitters|);
      case SubmitPush(j) => CountUpdate(Telling, s.submitters, j, t.submitters[j], |s.submitters|);
      case _ =>
    }
  }

  lemma {:induction false} RunKeepsInv(t: Trace)
    requires Possible(t)
    ensures Inv(Last(t))
  {
    match t
    case Start(s) => InitInv(s);
    case Then(before, a, after) =>
      RunKeepsInv(before);
      var s := Last(before);
      ExclusiveKept(s, a, after);
      FifoKept(s, a, after);
      InformedKept(s, a, after);
      OnceEachKept(s, a, after);
      ActiveKept(s, a, after);
      ExitLateKept(s, a, after);
      NoneForgottenKept(s, a, after);
  }

  // ---------------------------------------------------------------------
  // What the invariant is worth
  // ---------------------------------------------------------------------

  ghost predicate AllFinished(s: State) {
    s.started == s.accepted && forall k :: 0 <= k < |s.accepted| ==> k in s.finished
  }

  /**
   wait_all leaves its loop exactly when every task accepted so far has finished.
  */
  lemma WaitAllMeansDone(before: Trace, t: State)
    requires Possible(before) && Next(Last(before), WaitTestActive, t)
    ensures t.waiter == Left <==> AllFinished(t)
  {
    var s := Last(before);
    RunKeepsInv(before);
    CountNone(Busy, s.workers, |s.workers|);
    CountNone(Empty, s.started, |s.started|);
    assert s.started == s.accepted;
    if t.waiter == Left {
      forall k | 0 <= k < |s.accepted| ensures k in s.finished {
        assert k in s.finished || IsRunning(s, k);
      }
    }
  }

  // Starting an empty task puts wait_all's exit out of reach for good.
  lemma EmptyTaskBlocksWaitAll(before: Trace, t: State, k: nat)
    requires Possible(before) && Next(Last(before), WaitTestActive, t)
    requires k < |Last(before).started| && !Last(before).started[k].callable
    ensures t.waiter != Left
  {
    RunKeepsInv(before);
    CountNone(Empty, Last(before).started, |Last(before).started|);
  }

  // And one can be started: nothing rejects it, and nobody runs it.
  lemma EmptyTaskStarts() returns (t: Trace)
    ensures Possible(t) && Last(t).started == [Task(0, false)] && Last(t).queue == []
    ensures Last(t).active == 1 && BusyCount(Last(t)) == 0
  {
    var log := [Task(0, false)];
    t := EmptyTaskSeen();
    t := Extend(t, RetestStop(0), State(log, false, 0, ByWorker(0), [Take], [Notifying], Asleep, log, [], {}));
    t := Extend(t, Pop(0), State([], false, 1, Nobody, [WantLock], [Notifying], Asleep, log, log, {}));
  }

  lemma EmptyTaskSeen() returns (t: Trace)
    ensures Possible(t)
    ensures var log := [Task(0, false)];
            Last(t) == State(log, false, 0, ByWorker(0), [Decide], [Notifying], Asleep, log, [], {})
  {
    var log := [Task(0, false)];
    t := EmptyTaskPushed();
    t := Extend(t, Acquire(0), State(log, false, 0, ByWorker(0), [ReadStop], [Notifying], Asleep, log, [], {}));
    t := Extend(t, TestStop(0), State(log, false, 0, ByWorker(0), [ReadEmpty], [Notifying], Asleep, log, [], {}));
    t := Extend(t, TestEmpty(0), State(log, false, 0, ByWorker(0), [Decide], [Notifying], Asleep, log, [], {}));
  }

  lemma EmptyTaskPushed() returns (t: Trace)
    ensures Possible(t)
    ensures var log := [Task(0, false)];
            Last(t) == State(log, false, 0, Nobody, [WantLock], [Notifying], Asleep, log, [], {})
  {
    var none := Task(0, false);
    t := Start(State([], false, 0, Nobody, [WantLock], [Idle], Asleep, [], [], {}));
    t := Extend(t, SubmitLock(0, none),
                State([], false, 0, BySubmitter(0), [WantLock], [Locked(none)], Asleep, [], [], {}));
    t := Extend(t, SubmitCheck(0), State([], false, 0, BySubmitter(0), [WantLock], [Passed(none)], Asleep, [], [], {}));
    t := Extend(t, SubmitPush(0), State([none], false, 0, Nobody, [WantLock], [Notifying], Asleep, [none], [], {}));
  }

  // With tasks that can be called, `active_tasks` counts the running workers.
  lemma ActiveCountsRunning(t: Trace)
    requires Possible(t)
    ensures Last(t).active == BusyCount(Last(t))
            <==> forall k :: 0 <= k < |Last(t).started| ==> Last(t).started[k].callable
  {
    RunKeepsInv(t);
    CountNone(Empty, Last(t).started, |Last(t).started|);
  }

  /**
   Shutdown drains the pool: once every worker has exited, the queue is empty
   and every accepted task that can be called has finished.
  */
  lemma ExitedMeansDrained(t: Trace)
    requires Possible(t) && |Last(t).workers| > 0
    requires forall w :: 0 <= w < |Last(t).workers| ==> Last(t).workers[w] == Exited
    ensures var s := Last(t);
            && s.queue == [] && s.started == s.accepted
            && forall k :: 0 <= k < |s.accepted| && s.accepted[k].callable ==> k in s.finished
  {
    var s := Last(t);
    RunKeepsInv(t);
    assert s.workers[0].Exited?;
    assert s.started == s.accepted;
    forall k | 0 <= k < |s.accepted| && s.accepted[k].callable ensures k in s.finished {
      assert k in s.finished || IsRunning(s, k);
    }
  }

  // After a worker has exited, nothing is ever accepted again.
  lemma NothingAcceptedAfterExit(before: Trace, a: Action, t: State, w: nat)
    requires Possible(before) && Next(Last(before), a, t)
    requires w < |Last(before).workers| && Last(before).workers[w].Exited?
    ensures t.accepted == Last(before).accepted
  {
    RunKeepsInv(before);
  }

  /**
   No lost wakeup: before shutdown, while a task waits, some worker is not
   asleep or some submitter has still to notify.
  */
  lemma NoLostWakeup(t: Trace)
    requires Possible(t) && !Last(t).stop && |Last(t).workers| > 0 && Last(t).queue != []
    ensures (exists w :: 0 <= w < |Last(t).workers| && Awake(Last(t).workers[w]))
            || (exists j :: 0 <= j < |Last(t).submitters| && Last(t).submitters[j].Notifying?)
  {
    var s := Last(t);
    RunKeepsInv(t);
    CountNone(Awake, s.workers, |s.workers|);
    CountNone(Telling, s.submitters, |s.submitters|);
  }

  // ---------------------------------------------------------------------
  // The wakeup shutdown can lose
  // ---------------------------------------------------------------------

  // A run that goes on from state s.
  ghost predicate From(s: State, t: Trace) {
    match t
    case Start(first) => first == s
    case Then(before, a, after) => From(s, before) && Next(Last(before), a, after)
  }

  // Some worker read `stop` as false and has yet to test a queue that is empty.
  ghost predicate Exposed(s: State) {
    s.queue == [] && exists w: nat :: At(s, w, ReadEmpty)
  }

  ghost predicate SomeAsleep(s: State) { exists w: nat :: At(s, w, Blocked) }

  // Once `stop` is set, nobody falls asleep who was not exposed already.
  lemma {:induction false} NoneFallsAsleep(s: State, more: Trace)
    requires Exclusive(s) && s.stop && !Exposed(s) && !SomeAsleep(s) && From(s, more)
    ensures Exclusive(Last(more)) && Last(more).stop && !Exposed(Last(more)) && !SomeAsleep(Last(more))
  {
    if more.Then? {
      NoneFallsAsleep(s, more.before);
      ExclusiveKept(Last(more.before), more.a, more.after);
      StillSafe(Last(more.before), more.a, more.after);
    }
  }

  lemma StillSafe(s: State, a: Action, t: State)
    requires Exclusive(s) && s.stop && !Exposed(s) && !SomeAsleep(s) && Next(s, a, t)
    ensures t.stop && !Exposed(t) && !SomeAsleep(t)
  {
    forall w: nat | At(t, w, ReadEmpty) ensures t.queue != [] { assert At(s, w, ReadEmpty); }
    forall w: nat ensures !At(t, w, Blocked) {
      assert !At(s, w, Blocked);
      if At(s, w, ReadEmpty) { assert s.queue != []; }
    }
  }

  /**
   shutdown stores `stop` and notifies without the lock.  After its notify_all a
   worker can still fall asleep exactly when, at that moment, one had read `stop`
   before the store and was about to find the queue empty.
  */
  lemma StrandsIff(told: Trace)
    requires Possible(told) && told.Then? && told.a == NotifyAll
    ensures (exists more: Trace :: From(Last(told), more) && SomeAsleep(Last(more))) <==> Exposed(Last(told))
  {
    var s := Last(told);
    RunKeepsInv(told);
    forall w: nat ensures !At(s, w, Blocked) { }
    if Exposed(s) {
      var w: nat :| At(s, w, ReadEmpty);
      var asleep := Set(s, w, Blocked, Nobody);
      assert Next(s, TestEmpty(w), asleep);
      var more := Then(Start(s), TestEmpty(w), asleep);
      assert From(s, more.before) && From(s, more);
      assert At(Last(more), w, Blocked);
    } else {
      forall more: Trace | From(s, more) ensures !SomeAsleep(Last(more)) { NoneFallsAsleep(s, more); }
    }
  }

  // What could still wake worker w: the platform, or another notify_all.
  predicate Wakes(a: Action, w: nat) { a == Spurious(w) || a == NotifyAll }

  ghost predicate Undisturbed(t: Trace, w: nat) {
    t.Then? ==> !Wakes(t.a, w) && Undisturbed(t.before, w)
  }

  // After `stop`, with no submitter past its check, no task will be notified.
  ghost predicate NoNotify(s: State) {
    s.stop && forall j :: 0 <= j < |s.submitters| ==> !s.submitters[j].Passed? && !s.submitters[j].Notifying?
  }

  // Then a worker asleep is never woken, so the join on it does not return.
  lemma {:induction false} NothingWakes(s: State, w: nat, more: Trace)
    requires NoNotify(s) && At(s, w, Blocked) && From(s, more) && Undisturbed(more, w)
    ensures NoNotify(Last(more)) && At(Last(more), w, Blocked)
  {
    if more.Then? {
      NothingWakes(s, w, more.before);
      StaysAsleep(Last(more.before), w, more.a, more.after);
    }
  }

  lemma StaysAsleep(s: State, w: nat, a: Action, t: State)
    requires NoNotify(s) && At(s, w, Blocked) && Next(s, a, t) && !Wakes(a, w)
    ensures NoNotify(t) && At(t, w, Blocked)
  {
  }

  // One worker, no task: it reads `stop`, shutdown stores and notifies, it falls
  // asleep, and nothing wakes it.
  lemma ShutdownCanStrand() returns (told: Trace, t: Trace)
    ensures Possible(t) && t.Then? && t.before == told && told.Then? && told.a == NotifyAll
    ensures Last(t).stop && |Last(t).workers| == 1 && Last(t).queue == []
    ensures forall more: Trace :: From(Last(t), more) && Undisturbed(more, 0) ==> At(Last(more), 0, Blocked)
  {
    told := ReadStopThenTold();
    var s := State([], true, 0, Nobody, [Blocked], [], Asleep, [], [], {});
    t := Extend(told, TestEmpty(0), s);
    forall more: Trace | From(s, more) && Undisturbed(more, 0) ensures At(Last(more), 0, Blocked) {
      NothingWakes(s, 0, more);
    }
  }

  lemma ReadStopThenTold() returns (t: Trace)
    ensures Possible(t) && t.Then? && t.a == NotifyAll
    ensures Last(t) == State([], true, 0, ByWorker(0), [ReadEmpty], [], Asleep, [], [], {})
  {
    var s := State([], true, 0, ByWorker(0), [ReadEmpty], [], Asleep, [], [], {});
    t := Start(State([], false, 0, Nobody, [WantLock], [], Asleep, [], [], {}));
    t := Extend(t, Acquire(0), State([], false, 0, ByWorker(0), [ReadStop], [], Asleep, [], [], {}));
    t := Extend(t, TestStop(0), State([], false, 0, ByWorker(0), [ReadEmpty], [], Asleep, [], [], {}));
    t := Extend(t, StoreStop, s);
    assert s.workers == seq(1, w requires 0 <= w < 1 => Woken(s.workers[w]));
    t := Extend(t, NotifyAll, s);
  }

  lemma Extend(t: Trace, a: Action, s: State) returns (longer: Trace)
    requires Possible(t) && Next(Last(t), a, s)
    ensures longer == Then(t, a, s) && Possible(longer) && Last(longer) == s
  {
    longer := Then(t, a, s);
  }
}
