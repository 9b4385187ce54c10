/**
 WorkStealingThreadPool (src/thread_pool.cpp, include/thread_pool.h) as a step
 relation.  Each WorkStealingQueue operation takes that queue's own mutex, so it
 is one step; `stop` and `next_worker` are read and written between them.

 A task is named by its place: (q, k) is the k-th task pushed to queue q.
*/
module WorkStealing {

  datatype Task = Task(body: int)

  type Place = (nat, nat)

  datatype WorkerPc =
    | Loop                // about to read stop
    | TryLocal
    | TryGlobal
    | TrySteal(victim: nat)
    | Run(place: Place)
    | Exited

  datatype SubmitterPc = Idle | Checked(task: Task) | Assigned(task: Task, q: nat) | Rejected

  const COUNTER := 0x1_0000_0000_0000_0000  // next_worker is a 64-bit size_t

  // What became of a pushed task: still queued, popped from the front by the
  // queue's owner, or stolen from the back.
  datatype Fate = Waiting | Popped | Stolen

  /**
   Queues hold places; `pushed[q]` logs what was pushed to queue q and `fate[q]`
   what became of it; `dealt` logs the queue each fetch_add chose.  No step of
   the source pushes to the global queue.
  */
  datatype State = State(
    queues: seq<seq<nat>>, global: seq<Place>, stop: bool, next: nat,
    workers: seq<WorkerPc>, submitters: seq<SubmitterPc>,
    pushed: seq<seq<Task>>, fate: seq<seq<Fate>>, dealt: seq<nat>)

  datatype Action =
    | ReadStop(w: nat)
    | PopLocal(w: nat)
    | PopGlobal(w: nat)
    | Steal(w: nat)
    | Done(w: nat)
    | Check(j: nat, task: Task)
    | FetchAdd(j: nat)
    | Push(j: nat)
    | StoreStop

  ghost predicate Sized(s: State) {
    |s.workers| == |s.queues| == |s.pushed| == |s.fate| > 0
  }

  ghost predicate Init(s: State) {
    && Sized(s) && s.global == [] && !s.stop && s.next == 0 && s.dealt == []
    && (forall q :: 0 <= q < |s.queues| ==> s.queues[q] == [] && s.pushed[q] == [] && s.fate[q] == [])
    && (forall w :: 0 <= w < |s.workers| ==> s.workers[w] == Loop)
    && (forall j :: 0 <= j < |s.submitters| ==> s.submitters[j] == Idle)
  }

  function Go(s: State, w: nat, pc: WorkerPc): State
    requires w < |s.workers|
  {
    s.(workers := s.workers[w := pc])
  }

  function Front(q: seq<nat>): seq<nat>
    requires q != []
  {
    q[..|q| - 1]
  }

  function Back(q: seq<nat>): nat
    requires q != []
  {
    q[|q| - 1]
  }

  function Mark(fate: seq<Fate>, k: nat, f: Fate): seq<Fate> {
    if k < |fate| then fate[k := f] else fate
  }

  ghost predicate Next(s: State, a: Action, t: State) {
    Sized(s) &&
    match a
    case ReadStop(w) =>
      w < |s.workers| && s.workers[w].Loop? && t == Go(s, w, if s.stop then Exited else TryLocal)
    case PopLocal(w) =>
      && w < |s.workers| && s.workers[w].TryLocal?
      && t == if s.queues[w] == [] then Go(s, w, TryGlobal)
              else Go(s, w, Run((w, s.queues[w][0])))
                   .(queues := s.queues[w := s.queues[w][1..]],
                     fate := s.fate[w := Mark(s.fate[w], s.queues[w][0], Popped)])
    case PopGlobal(w) =>
      && w < |s.workers| && s.workers[w].TryGlobal?
      && t == if s.global == [] then Go(s, w, TrySteal(0))
              else Go(s, w, Run(s.global[0])).(global := s.global[1..])
    case Steal(w) =>
      && w < |s.workers| && s.workers[w].TrySteal?
      && var v := s.workers[w].victim;
         t == if v >= |s.workers| then Go(s, w, Loop)
              else if v == w || s.queues[v] == [] then Go(s, w, TrySteal(v + 1))
              else Go(s, w, Run((v, Back(s.queues[v]))))
                   .(queues := s.queues[v := Front(s.queues[v])],
                     fate := s.fate[v := Mark(s.fate[v], Back(s.queues[v]), Stolen)])
    case Done(w) =>
      w < |s.workers| && s.workers[w].Run? && t == Go(s, w, Loop)
    case Check(j, task) =>
      && j < |s.submitters| && (s.submitters[j].Idle? || s.submitters[j].Rejected?)
      && t == s.(submitters := s.submitters[j := if s.stop then Rejected else Checked(task)])
    case FetchAdd(j) =>
      && j < |s.submitters| && s.submitters[j].Checked?
      && t == s.(submitters := s.submitters[j := Assigned(s.submitters[j].task, s.next % |s.workers|)],
                 next := (s.next + 1) % COUNTER, dealt := s.dealt + [s.next % |s.workers|])
    case Push(j) =>
      && j < |s.submitters| && s.submitters[j].Assigned? && s.submitters[j].q < |s.queues|
      && var q := s.submitters[j].q;
         t == s.(submitters := s.submitters[j := Idle],
                 queues := s.queues[q := s.queues[q] + [|s.pushed[q]|]],
                 pushed := s.pushed[q := s.pushed[q] + [s.submitters[j].task]],
                 fate := s.fate[q := s.fate[q] + [Waiting]])
    case StoreStop =>
      t == s.(stop := true)
  }

  datatype Trace = Start(first: State) | Then(before: Trace, a: Action, after: State)

  function Last(t: Trace): State { if t.Start? then t.first else t.after }

  ghost predicate Possible(t: Trace) {
    match t
    case Start(s) => Init(s)
    case Then(before, a, after) => Possible(before) && Next(Last(before), a, after)
  }

  // ---------------------------------------------------------------------
  // One queue with its logs
  // ---------------------------------------------------------------------

  ghost predicate Increasing(xs: seq<nat>) {
    forall i, j :: 0 <= i < j < |xs| ==> xs[i] < xs[j]
  }

  /**
   The queue holds exactly the places still waiting, in push order, and the
   owner has taken only places before all of them.
  */
  ghost predicate Kept(queue: seq<nat>, fate: seq<Fate>) {
    && Increasing(queue)
    && (forall i :: 0 <= i < |queue| ==> queue[i] < |fate| && fate[queue[i]] == Waiting)
    && (forall k :: 0 <= k < |fate| && fate[k] == Waiting ==> Holds(queue, k))
    && (forall k, i :: 0 <= k < |fate| && fate[k] == Popped && 0 <= i < |queue| ==> k < queue[i])
  }

  ghost predicate Holds(queue: seq<nat>, k: nat) { exists i :: 0 <= i < |queue| && queue[i] == k }

  lemma KeptPop(queue: seq<nat>, fate: seq<Fate>)
    requires Kept(queue, fate) && queue != []
    ensures Kept(queue[1..], Mark(fate, queue[0], Popped))
  {
    var rest := queue[1..];
    forall k | 0 <= k < |fate| && fate[k] == Waiting && k != queue[0] ensures Holds(rest, k) {
      assert Holds(queue, k);
      var i :| 0 <= i < |queue| && queue[i] == k;
      assert rest[i - 1] == k;
    }
  }

  lemma KeptSteal(queue: seq<nat>, fate: seq<Fate>)
    requires Kept(queue, fate) && queue != []
    ensures Kept(Front(queue), Mark(fate, Back(queue), Stolen))
  {
    var rest := Front(queue);
    forall k | 0 <= k < |fate| && fate[k] == Waiting && k != Back(queue) ensures Holds(rest, k) {
      assert Holds(queue, k);
      var i :| 0 <= i < |queue| && queue[i] == k;
      assert rest[i] == k;
    }
  }

  lemma KeptPush(queue: seq<nat>, fate: seq<Fate>)
    requires Kept(queue, fate)
    ensures Kept(queue + [|fate|], fate + [Waiting])
  {
    var longer := queue + [|fate|];
    forall k | 0 <= k < |fate| + 1 && (fate + [Waiting])[k] == Waiting ensures Holds(longer, k) {
      if k < |fate| {
        assert Holds(queue, k);
        var i :| 0 <= i < |queue| && queue[i] == k;
        assert longer[i] == k;
      } else {
        assert longer[|queue|] == k;
      }
    }
  }

  /**
   The queue as an object. Its elements are the places of what was pushed; `fate`
   logs what became of each, as in the step relation.
  */
  class WorkStealingQueue {
    var queue: seq<nat>
    ghost var fate: seq<Fate>

    ghost predicate Valid()
      reads this
    {
      Kept(queue, fate)
    }

    constructor ()
      ensures Valid() && queue == [] && fate == []
    {
      queue, fate := [], [];
    }

    method Push(place: nat)
      requires Valid() && place == |fate|
      modifies this
      ensures Valid() && queue == old(queue) + [place] && fate == old(fate) + [Waiting]
    {
      KeptPush(queue, fate);
      queue := queue + [place];
      fate := fate + [Waiting];
    }

    // The owner takes from the front: what it took before was pushed earlier, what is
    // left was pushed later.
    method TryPop() returns (found: bool, place: nat)
      requires Valid()
      modifies this
      ensures Valid() && (found <==> old(queue) != [])
      ensures !found ==> queue == old(queue) && fate == old(fate)
      ensures found ==> queue == old(queue)[1..] && place < |fate| && fate == Mark(old(fate), place, Popped)
      ensures found ==> old(fate)[place] == Waiting
      ensures found ==> forall k :: 0 <= k < |fate| && old(fate)[k] == Popped ==> k < place
      ensures found ==> forall k :: 0 <= k < place ==> fate[k] != Waiting
    {
      if queue == [] { return false, 0; }
      KeptPop(queue, fate);
      place := queue[0];
      fate := Mark(fate, place, Popped);
      queue := queue[1..];
      return true, place;
    }

    // A thief takes what was pushed last among what waits.
    method TrySteal() returns (found: bool, place: nat)
      requires Valid()
      modifies this
      ensures Valid() && (found <==> old(queue) != [])
      ensures !found ==> queue == old(queue) && fate == old(fate)
      ensures found ==> queue == Front(old(queue)) && place < |fate| && fate == Mark(old(fate), place, Stolen)
      ensures found ==> old(fate)[place] == Waiting && forall k :: place < k < |fate| ==> fate[k] != Waiting
    {
      if queue == [] { return false, 0; }
      KeptSteal(queue, fate);
      place := Back(queue);
      fate := Mark(fate, place, Stolen);
      queue := Front(queue);
      return true, place;
    }
  }

  ghost predicate Inv(s: State) {
    && Sized(s) && s.global == []
    && (forall q :: 0 <= q < |s.queues| ==> |s.fate[q]| == |s.pushed[q]| && Kept(s.queues[q], s.fate[q]))
    && (forall w :: 0 <= w < |s.workers| && s.workers[w].Run? ==> Taken(s, s.workers[w].place))
    && (forall v, w :: 0 <= v < w < |s.workers| && s.workers[v].Run? && s.workers[w].Run? ==>
          s.workers[v].place != s.workers[w].place)
    && (forall j :: 0 <= j < |s.submitters| && s.submitters[j].Assigned? ==> s.submitters[j].q < |s.queues|)
    && s.next == |s.dealt| % COUNTER && DealtRight(s.dealt, |s.workers|)
  }

  // The queue the k-th submission is dealt to, among n.
  function Choice(k: nat, n: nat): nat
    requires n > 0
  {
    (k % COUNTER) % n
  }

  ghost predicate DealtRight(dealt: seq<nat>, n: nat)
    requires n > 0
  {
    forall k :: 0 <= k < |dealt| ==> dealt[k] == Choice(k, n)
  }

  ghost predicate Taken(s: State, p: Place)
    requires Sized(s)
  {
    p.0 < |s.fate| && p.1 < |s.fate[p.0]| && s.fate[p.0][p.1] != Waiting
  }

  lemma QueuesKept(s: State, a: Action, t: State)
    requires Inv(s) && Next(s, a, t)
    ensures Sized(t) && t.global == []
    ensures forall q :: 0 <= q < |t.queues| ==> |t.fate[q]| == |t.pushed[q]| && Kept(t.queues[q], t.fate[q])
  {
    match a
    case PopLocal(w) => if s.queues[w] != [] { KeptPop(s.queues[w], s.fate[w]); }
    case Steal(w) =>
      var v := s.workers[w].victim;
      if v < |s.workers| && v != w && s.queues[v] != [] { KeptSteal(s.queues[v], s.fate[v]); }
    case Push(j) => KeptPush(s.queues[s.submitters[j].q], s.fate[s.submitters[j].q]);
    case _ =>
  }

  // A fate, once decided, stays.
  lemma FateKept(s: State, a: Action, t: State, p: Place)
    requires Inv(s) && Next(s, a, t) && Taken(s, p)
    ensures Sized(t) && Taken(t, p) && t.fate[p.0][p.1] == s.fate[p.0][p.1]
  {
  }

  // A task starts by leaving the queue it was waiting in.
  lemma StartsWaiting(s: State, a: Action, t: State, w: nat)
    requires Inv(s) && Next(s, a, t) && w < |t.workers| && t.workers[w].Run? && t.workers[w] != s.workers[w]
    ensures !Taken(s, t.workers[w].place) && Taken(t, t.workers[w].place)
    ensures forall v :: 0 <= v < |t.workers| && v != w ==> t.workers[v] == s.workers[v]
  {
  }

  lemma DealtKept(s: State, a: Action, t: State)
    requires Inv(s) && Next(s, a, t)
    ensures |t.workers| == |s.workers| && t.next == |t.dealt| % COUNTER && DealtRight(t.dealt, |t.workers|)
  {
    if a.FetchAdd? {
      ModNext(|s.dealt|, COUNTER);
    } else {
      assert t.dealt == s.dealt && t.next == s.next;
    }
  }

  lemma AssignedKept(s: State, a: Action, t: State)
    requires Inv(s) && Next(s, a, t)
    ensures forall j :: 0 <= j < |t.submitters| && t.submitters[j].Assigned? ==> t.submitters[j].q < |t.queues|
  {
  }

  lemma StepKeepsInv(s: State, a: Action, t: State)
    requires Inv(s) && Next(s, a, t)
    ensures Inv(t)
  {
    QueuesKept(s, a, t);
    DealtKept(s, a, t);
    AssignedKept(s, a, t);
    forall w | 0 <= w < |t.workers| && t.workers[w].Run?
      ensures Taken(t, t.workers[w].place)
    {
      if s.workers[w] == t.workers[w] { FateKept(s, a, t, s.workers[w].place); } else { StartsWaiting(s, a, t, w); }
    }
    forall v, w | 0 <= v < w < |t.workers| && t.workers[v].Run? && t.workers[w].Run?
      ensures t.workers[v].place != t.workers[w].place
    {
      if s.workers[w] != t.workers[w] { StartsWaiting(s, a, t, w); }
      if s.workers[v] != t.workers[v] { StartsWaiting(s, a, t, v); }
    }
  }

  /**
   No task is lost: in every reachable state each task pushed either waits in its
   queue, at its place in push order, or was taken from it, and no two workers
   run the same task.
  */
  lemma {:induction false} RunKeepsInv(t: Trace)
    requires Possible(t)
    ensures Inv(Last(t))
  {
    match t
    case Start(s) =>
    case Then(before, a, after) =>
      RunKeepsInv(before);
      StepKeepsInv(Last(before), a, after);
  }

  // No task is started twice: what a worker starts had not been taken before,
  // and stays taken.
  lemma StartedOnce(before: Trace, a: Action, t: State, w: nat, p: Place)
    requires Possible(before) && Next(Last(before), a, t)
    requires w < |t.workers| && t.workers[w] == Run(p) && Last(before).workers[w] != Run(p)
    ensures Sized(t) && !Taken(Last(before), p) && Taken(t, p)
  {
    RunKeepsInv(before);
    StartsWaiting(Last(before), a, t, w);
  }

  // The owner takes its tasks in the order they were pushed.
  lemma OwnerPopsInOrder(before: Trace, w: nat, t: State, k: nat)
    requires Possible(before) && Next(Last(before), PopLocal(w), t) && t.workers[w].Run?
    requires k < |Last(before).fate[w]| && Last(before).fate[w][k] == Popped
    ensures t.workers[w].place.0 == w && k < t.workers[w].place.1
  {
    RunKeepsInv(before);
  }

  // ---------------------------------------------------------------------
  // When a local queue is a contiguous slice of its pushes
  // ---------------------------------------------------------------------

  ghost predicate Contiguous(queue: seq<nat>) {
    forall i :: 0 <= i < |queue| ==> queue[i] == queue[0] + i
  }

  // Popping and stealing keep a slice a slice.
  lemma TakingKeepsContiguous(queue: seq<nat>)
    requires Contiguous(queue) && queue != []
    ensures Contiguous(queue[1..]) && Contiguous(Front(queue))
  {
  }

  // A push keeps it one exactly when the push before it is still at the back.
  lemma PushContiguous(queue: seq<nat>, n: nat)
    requires Contiguous(queue)
    ensures Contiguous(queue + [n]) <==> queue == [] || Back(queue) + 1 == n
  {
    var longer := queue + [n];
    if queue != [] {
      assert Back(queue) == queue[0] + |queue| - 1;
      assert longer[0] == queue[0] && longer[|queue|] == n;
      if Back(queue) + 1 == n {
        forall i | 0 <= i < |longer| ensures longer[i] == longer[0] + i { }
      }
    }
  }

  /**
   In every reachable state a local queue is a slice of its pushes exactly when
   nothing between its two ends was stolen.
  */
  lemma ContiguousIff(t: Trace, q: nat)
    requires Possible(t) && q < |Last(t).queues|
    ensures Sized(Last(t))
    ensures Contiguous(Last(t).queues[q]) <==> NoneStolenInside(Last(t).queues[q], Last(t).fate[q])
  {
    RunKeepsInv(t);
    KeptContiguousIff(Last(t).queues[q], Last(t).fate[q]);
  }

  ghost predicate NoneStolenInside(queue: seq<nat>, fate: seq<Fate>) {
    queue != [] ==> forall k :: 0 <= k < |fate| && queue[0] < k < Back(queue) ==> fate[k] != Stolen
  }

  lemma KeptContiguousIff(queue: seq<nat>, fate: seq<Fate>)
    requires Kept(queue, fate)
    ensures Contiguous(queue) <==> NoneStolenInside(queue, fate)
  {
    if Contiguous(queue) && queue != [] {
      forall k | 0 <= k < |fate| && queue[0] < k < Back(queue) ensures fate[k] != Stolen {
        assert queue[k - queue[0]] == k;
      }
    }
    if NoneStolenInside(queue, fate) {
      forall i | 0 <= i < |queue| ensures queue[i] == queue[0] + i { NoGapBefore(queue, fate, i); }
    }
  }

  lemma {:induction false} NoGapBefore(queue: seq<nat>, fate: seq<Fate>, i: nat)
    requires Kept(queue, fate) && NoneStolenInside(queue, fate) && i < |queue|
    ensures queue[i] == queue[0] + i
  {
    if i > 0 {
      NoGapBefore(queue, fate, i - 1);
      var k := queue[i - 1] + 1;
      assert k <= queue[i] <= Back(queue);
      assert fate[k] == Waiting;
      assert Holds(queue, k);
      var j :| 0 <= j < |queue| && queue[j] == k;
      assert i <= j;
    }
  }

  // A state of two workers where only queue 0 was pushed to.
  function TwoWorkers(queue: seq<nat>, fate: seq<Fate>, thief: WorkerPc, submitters: seq<SubmitterPc>, next: nat,
                      dealt: seq<nat>): State {
    State([queue, []], [], false, next, [Loop, thief], submitters, [seq(|fate|, _ => Task(0)), []], [fate, []], dealt)
  }

  lemma Extend(t: Trace, a: Action, s: State) returns (longer: Trace)
    requires Possible(t) && Next(Last(t), a, s)
    ensures longer == Then(t, a, s) && Possible(longer) && Last(longer) == s
  {
    longer := Then(t, a, s);
  }

  // Submitter j is dealt queue next % 2 and has still to push.
  lemma Deal(t: Trace, queue: seq<nat>, fate: seq<Fate>, thief: WorkerPc, submitters: seq<SubmitterPc>, next: nat,
             dealt: seq<nat>, j: nat) returns (longer: Trace)
    requires Possible(t) && Last(t) == TwoWorkers(queue, fate, thief, submitters, next, dealt)
    requires j < |submitters| && submitters[j] == Idle && next + 1 < COUNTER
    ensures Possible(longer)
    ensures Last(longer) == TwoWorkers(queue, fate, thief, submitters[j := Assigned(Task(0), next % 2)], next + 1,
                                       dealt + [next % 2])
  {
    longer := Extend(t, Check(j, Task(0)),
                     TwoWorkers(queue, fate, thief, submitters[j := Checked(Task(0))], next, dealt));
    longer := Extend(longer, FetchAdd(j),
                     TwoWorkers(queue, fate, thief, submitters[j := Assigned(Task(0), next % 2)], next + 1,
                                dealt + [next % 2]));
  }

  // Submitter 0 pushes to queue 0.
  lemma PushFirst(t: Trace, queue: seq<nat>, fate: seq<Fate>, thief: WorkerPc, rest: seq<SubmitterPc>, next: nat,
                  dealt: seq<nat>) returns (longer: Trace)
    requires Possible(t) && Last(t) == TwoWorkers(queue, fate, thief, [Assigned(Task(0), 0)] + rest, next, dealt)
    ensures Possible(longer)
    ensures Last(longer) == TwoWorkers(queue + [|fate|], fate + [Waiting], thief, [Idle] + rest, next, dealt)
  {
    var submitters := [Assigned(Task(0), 0)] + rest;
    assert seq(|fate| + 1, _ => Task(0)) == seq(|fate|, _ => Task(0)) + [Task(0)];
    assert submitters[0 := Idle] == [Idle] + rest;
    longer := Extend(t, Push(0), TwoWorkers(queue + [|fate|], fate + [Waiting], thief, [Idle] + rest, next, dealt));
  }

  // Worker 1 finds nothing of its own and steals from queue 0.
  lemma StealFromFirst(t: Trace, queue: seq<nat>, fate: seq<Fate>, submitters: seq<SubmitterPc>, next: nat,
                       dealt: seq<nat>) returns (longer: Trace)
    requires Possible(t) && Last(t) == TwoWorkers(queue, fate, Loop, submitters, next, dealt)
    requires queue != [] && Back(queue) < |fate|
    ensures Possible(longer)
    ensures Last(longer) == TwoWorkers(Front(queue), Mark(fate, Back(queue), Stolen), Run((0, Back(queue))),
                                       submitters, next, dealt)
  {
    longer := Extend(t, ReadStop(1), TwoWorkers(queue, fate, TryLocal, submitters, next, dealt));
    longer := Extend(longer, PopLocal(1), TwoWorkers(queue, fate, TryGlobal, submitters, next, dealt));
    longer := Extend(longer, PopGlobal(1), TwoWorkers(queue, fate, TrySteal(0), submitters, next, dealt));
    longer := Extend(longer, Steal(1),
                     TwoWorkers(Front(queue), Mark(fate, Back(queue), Stolen), Run((0, Back(queue))),
                                submitters, next, dealt));
  }

  // So a queue is not a slice in general: push, push, steal, push on queue 0 of
  // two, while the submitters dealt queue 1 have not pushed yet.
  lemma StealThenPushLeavesGap() returns (t: Trace)
    ensures Possible(t) && |Last(t).queues| == 2 && Last(t).queues[0] == [0, 2]
    ensures !Contiguous(Last(t).queues[0])
  {
    assert [0, 1, 0] + [1] == [0, 1, 0, 1] && [0, 1, 0, 1] + [0] == [0, 1, 0, 1, 0];
    assert [0] + [2] == [0, 2] && [LATE, Idle][1 := LATE] == [LATE, LATE];
    t := PushPushSteal();
    t := DealLate(t, [0], [Waiting, Stolen], Run((0, 1)), [LATE, Idle], [LATE, LATE], 1, 3, [0, 1, 0]);
    t := DealToFirst(t, [0], [Waiting, Stolen], Run((0, 1)), [LATE, LATE], 4, [0, 1, 0, 1]);
    t := PushFirst(t, [0], [Waiting, Stolen], Run((0, 1)), [LATE, LATE], 5, [0, 1, 0, 1, 0]);
    assert Last(t).queues[0][1] != Last(t).queues[0][0] + 1;
  }

  const LATE := Assigned(Task(0), 1)

  lemma PushPushSteal() returns (t: Trace)
    ensures Possible(t)
    ensures Last(t) == TwoWorkers([0], [Waiting, Stolen], Run((0, 1)), [Idle] + [LATE, Idle], 3, [0, 1, 0])
  {
    t := PushOnce();
    t := DealLate(t, [0], [Waiting], Loop, [Idle, Idle], [LATE, Idle], 0, 1, [0]);
    t := DealToFirst(t, [0], [Waiting], Loop, [LATE, Idle], 2, [0, 1]);
    t := PushFirst(t, [0], [Waiting], Loop, [LATE, Idle], 3, [0, 1, 0]);
    assert [0] + [1] == [0, 1] && [Waiting] + [Waiting] == [Waiting, Waiting];
    t := StealFromFirst(t, [0, 1], [Waiting, Waiting], [Idle] + [LATE, Idle], 3, [0, 1, 0]);
    assert Front([0, 1]) == [0] && Mark([Waiting, Waiting], 1, Stolen) == [Waiting, Stolen];
  }

  lemma PushOnce() returns (t: Trace)
    ensures Possible(t) && Last(t) == TwoWorkers([0], [Waiting], Loop, [Idle] + [Idle, Idle], 1, [0])
  {
    assert [Idle] + [Idle, Idle] == [Idle, Idle, Idle];
    t := Start(TwoWorkers([], [], Loop, [Idle] + [Idle, Idle], 0, []));
    t := DealToFirst(t, [], [], Loop, [Idle, Idle], 0, []);
    t := PushFirst(t, [], [], Loop, [Idle, Idle], 1, [0]);
    assert [] + [0] == [0] && [] + [Waiting] == [Waiting];
  }

  lemma DealToFirst(t: Trace, queue: seq<nat>, fate: seq<Fate>, thief: WorkerPc, rest: seq<SubmitterPc>, next: nat,
                    dealt: seq<nat>) returns (longer: Trace)
    requires Possible(t) && Last(t) == TwoWorkers(queue, fate, thief, [Idle] + rest, next, dealt)
    requires next + 1 < COUNTER && next % 2 == 0
    ensures Possible(longer)
    ensures Last(longer) == TwoWorkers(queue, fate, thief, [Assigned(Task(0), 0)] + rest, next + 1, dealt + [0])
  {
    longer := Deal(t, queue, fate, thief, [Idle] + rest, next, dealt, 0);
    assert ([Idle] + rest)[0 := Assigned(Task(0), 0)] == [Assigned(Task(0), 0)] + rest;
  }

  lemma DealLate(t: Trace, queue: seq<nat>, fate: seq<Fate>, thief: WorkerPc, rest: seq<SubmitterPc>,
                 after: seq<SubmitterPc>, i: nat, next: nat, dealt: seq<nat>) returns (longer: Trace)
    requires Possible(t) && Last(t) == TwoWorkers(queue, fate, thief, [Idle] + rest, next, dealt)
    requires next + 1 < COUNTER && next % 2 == 1 && i < |rest| && rest[i] == Idle && after == rest[i := LATE]
    ensures Possible(longer)
    ensures Last(longer) == TwoWorkers(queue, fate, thief, [Idle] + after, next + 1, dealt + [1])
  {
    longer := Deal(t, queue, fate, thief, [Idle] + rest, next, dealt, i + 1);
    assert ([Idle] + rest)[i + 1 := LATE] == [Idle] + after;
  }

  // ---------------------------------------------------------------------
  // Round robin
  // ---------------------------------------------------------------------

  // How many of the first `total` submissions went to queue w of n.
  function AssignedTo(total: nat, n: nat, w: nat): nat
    requires n > 0
  {
    if total == 0 then 0
    else AssignedTo(total - 1, n, w) + if Choice(total - 1, n) == w then 1 else 0
  }

  lemma ModNext(k: nat, n: nat)
    requires n > 0
    ensures (k + 1) % n == if k % n == n - 1 then 0 else k % n + 1
    ensures (k + 1) / n == if k % n == n - 1 then k / n + 1 else k / n
  {
    var q, r := k / n, k % n;
    assert k == n * q + r;
    if r == n - 1 { DivModUnique(k + 1, n, q + 1, 0); } else { DivModUnique(k + 1, n, q, r + 1); }
  }

  lemma DivModUnique(k: nat, n: nat, q: nat, r: nat)
    requires n > 0 && k == n * q + r && r < n
    ensures k / n == q && k % n == r
  {
    var d := k / n - q;
    assert n * d == r - k % n;
    MulBound(n, d);
  }

  lemma MulBound(n: int, d: int)
    requires n >= 0
    ensures d >= 1 ==> n * d >= n
    ensures d <= -1 ==> n * d <= -n
  {
  }

  lemma BelowCounter(k: nat)
    requires k < COUNTER
    ensures k % COUNTER == k && (COUNTER + k) % COUNTER == k
  {
  }

  // Before the counter wraps, the shares are even.
  lemma {:induction false} EvenShares(total: nat, n: nat, w: nat)
    requires n > 0 && w < n && total <= COUNTER
    ensures AssignedTo(total, n, w) == total / n + if w < total % n then 1 else 0
  {
    if total > 0 {
      EvenShares(total - 1, n, w);
      ModNext(total - 1, n);
      BelowCounter(total - 1);
    }
  }

  lemma {:induction false} EvenSharesAlways(total: nat, n: nat, w: nat)
    requires n > 0 && w < n && COUNTER % n == 0
    ensures AssignedTo(total, n, w) == total / n + if w < total % n then 1 else 0
  {
    if total > 0 {
      EvenSharesAlways(total - 1, n, w);
      ModNext(total - 1, n);
      ModMod(total - 1, n);
    }
  }

  lemma ModMod(k: nat, n: nat)
    requires n > 0 && COUNTER % n == 0
    ensures (k % COUNTER) % n == k % n
  {
    var q, r, m := k / COUNTER, k % COUNTER, COUNTER / n;
    assert COUNTER == n * m;
    assert r == n * (r / n) + r % n;
    assert k == n * (m * q + r / n) + r % n by {
      assert k == COUNTER * q + r;
      assert COUNTER * q == n * (m * q);
    }
    DivModUnique(k, n, m * q + r / n, r % n);
  }

  ghost predicate Balanced(total: nat, n: nat)
    requires n > 0
  {
    forall v, w :: 0 <= v < n && 0 <= w < n ==> AssignedTo(total, n, v) <= AssignedTo(total, n, w) + 1
  }

  // How often w occurs among the first n entries.
  function Occurrences(xs: seq<nat>, w: nat, n: nat): nat
    requires n <= |xs|
  {
    if n == 0 then 0 else Occurrences(xs, w, n - 1) + if xs[n - 1] == w then 1 else 0
  }

  lemma {:induction false} DealtAsAssigned(s: State, w: nat, n: nat)
    requires Inv(s) && n <= |s.dealt|
    ensures Occurrences(s.dealt, w, n) == AssignedTo(n, |s.workers|, w)
  {
    if n > 0 { DealtAsAssigned(s, w, n - 1); }
  }

  // Along every run, until 2^64 submissions, no queue is dealt two more than another.
  lemma DealtEvenly(t: Trace, v: nat, w: nat)
    requires Possible(t) && v < |Last(t).workers| && w < |Last(t).workers| && |Last(t).dealt| <= COUNTER
    ensures var log := Last(t).dealt; Occurrences(log, v, |log|) <= Occurrences(log, w, |log|) + 1
  {
    var s := Last(t);
    RunKeepsInv(t);
    DealtAsAssigned(s, v, |s.dealt|);
    DealtAsAssigned(s, w, |s.dealt|);
    BalancedBeforeWrap(|s.dealt|, |s.workers|);
  }

  lemma BalancedBeforeWrap(total: nat, n: nat)
    requires n > 0 && total <= COUNTER
    ensures Balanced(total, n)
  {
    forall v, w | 0 <= v < n && 0 <= w < n
      ensures AssignedTo(total, n, v) <= AssignedTo(total, n, w) + 1
    {
      EvenShares(total, n, v);
      EvenShares(total, n, w);
    }
  }

  // Past the wrap the counter starts over at queue 0.
  lemma {:induction false} SecondRound(extra: nat, n: nat, w: nat)
    requires n > 0 && extra <= COUNTER
    ensures AssignedTo(COUNTER + extra, n, w) == AssignedTo(COUNTER, n, w) + AssignedTo(extra, n, w)
  {
    if extra > 0 {
      SecondRound(extra - 1, n, w);
      BelowCounter(extra - 1);
    }
  }

  /**
   Round robin stays within one task of even for every number of submissions
   exactly when the number of workers divides 2^64.
  */
  lemma BalancedForeverIff(n: nat)
    requires n > 0
    ensures (forall total: nat :: Balanced(total, n)) <==> COUNTER % n == 0
  {
    if COUNTER % n == 0 {
      forall total: nat ensures Balanced(total, n) {
        forall v, w | 0 <= v < n && 0 <= w < n
          ensures AssignedTo(total, n, v) <= AssignedTo(total, n, w) + 1
        {
          EvenSharesAlways(total, n, v);
          EvenSharesAlways(total, n, w);
        }
      }
    } else {
      var full: nat := COUNTER;
      var first, last := 0, n - 1;
      SecondRound(full, n, first);
      SecondRound(full, n, last);
      EvenShares(full, n, first);
      EvenShares(full, n, last);
      assert !Balanced(full + full, n);
    }
  }
}
