/** Reliable queues over Redis lists.

The Redis commands are functions on a map from keys to lists; the head of a list is its left end.
The class runs the queue's operations one after the other, with no other client in between; the
concurrent behaviour, one command at a time, is in module Delivery.
*/
module TaskQueue {
  import opened Options

  datatype Task = Task(id: string, queue: string, job: string, payload: string, enqueuedMs: int, attempts: nat)

  datatype Key = Queue(queue: string) | Processing(queue: string, consumer: string) | Dead(queue: string)

  type Lists = map<Key, seq<Task>>

  const ALL_QUEUES: seq<string> :=
    ["asr.realtime", "speaker.realtime", "asr.batch", "speaker.batch",
     "separation.two_source", "separation.beta", "gss.batch", "fusion"]

  // ---- Redis commands ---------------------------------------------------------------------

  function At(lists: Lists, k: Key): seq<Task> {
    if k in lists then lists[k] else []
  }

  function LPush(lists: Lists, k: Key, t: Task): Lists {
    lists[k := [t] + At(lists, k)]
  }

  /** The task `RPOP` takes, if there is one. */
  function Rightmost(lists: Lists, k: Key): Option<Task> {
    var list := At(lists, k);
    if list == [] then None else Some(list[|list| - 1])
  }

  function RPop(lists: Lists, k: Key): Lists {
    var list := At(lists, k);
    if list == [] then lists else lists[k := list[..|list| - 1]]
  }

  function RPopLPush(lists: Lists, from: Key, to: Key): Lists {
    match Rightmost(lists, from)
    case None => lists
    case Some(t) => LPush(RPop(lists, from), to, t)
  }

  /** A list without its leftmost occurrence of `t`. */
  function Without(list: seq<Task>, t: Task): seq<Task> {
    if list == [] then []
    else if list[0] == t then list[1..]
    else [list[0]] + Without(list[1..], t)
  }

  function LRem(lists: Lists, k: Key, t: Task): Lists {
    lists[k := Without(At(lists, k), t)]
  }

  function Again(t: Task): Task {
    t.(attempts := t.attempts + 1)
  }

  function RetryKey(t: Task, maxAttempts: int): Key {
    if t.attempts + 1 >= maxAttempts then Dead(t.queue) else Queue(t.queue)
  }

  // ---- requeue_stale ----------------------------------------------------------------------

  function Age(t: Task, nowMs: int): int {
    if nowMs >= t.enqueuedMs then nowMs - t.enqueuedMs else 0
  }

  /** The loop on the two lists it moves between; `reading` counts the clock readings so far. */
  function Requeue(processing: seq<Task>, queue: seq<Task>, timeoutMs: int, clock: nat -> int, reading: nat)
    : (seq<Task>, seq<Task>)
  {
    if processing == [] then (processing, queue)
    else
      var rest, t := processing[..|processing| - 1], processing[|processing| - 1];
      if Age(t, clock(reading)) < timeoutMs then ([t] + rest, queue)
      else Requeue(rest, [t] + queue, timeoutMs, clock, reading + 1)
  }

  /** The `i`-th task from the right has outlived its lease when the loop gets to it. */
  predicate StaleAt(processing: seq<Task>, i: nat, timeoutMs: int, clock: nat -> int, reading: nat) {
    i < |processing| && Age(processing[|processing| - 1 - i], clock(reading + i)) >= timeoutMs
  }

  /** The last `k` tasks are stale, and the one before them is not. */
  ghost predicate StaleRun(processing: seq<Task>, k: nat, timeoutMs: int, clock: nat -> int, reading: nat) {
    && k <= |processing|
    && (forall i :: 0 <= i < k ==> StaleAt(processing, i, timeoutMs, clock, reading))
    && !StaleAt(processing, k, timeoutMs, clock, reading)
  }

  /** The last `k` tasks in front of the queue, and the task before them rotated to the left end. */
  function MoveRun(processing: seq<Task>, queue: seq<Task>, k: nat): (seq<Task>, seq<Task>)
    requires k <= |processing|
  {
    var n := |processing|;
    (if k == n then [] else [processing[n - 1 - k]] + processing[..n - 1 - k], processing[n - k..] + queue)
  }

  lemma MoveRunStep(rest: seq<Task>, t: Task, queue: seq<Task>, k: nat)
    requires k <= |rest|
    ensures MoveRun(rest + [t], queue, k + 1) == MoveRun(rest, [t] + queue, k)
  {
    var n := |rest|;
    assert (rest + [t])[n - k..] == rest[n - k..] + [t];
    assert rest[n - k..] + [t] + queue == rest[n - k..] + ([t] + queue);
    if k < n {
      assert (rest + [t])[..n - 1 - k] == rest[..n - 1 - k];
    }
  }

  lemma StaleRunStep(rest: seq<Task>, t: Task, k: nat, timeoutMs: int, clock: nat -> int, reading: nat)
    requires k >= 1 && StaleRun(rest + [t], k, timeoutMs, clock, reading)
    ensures StaleAt(rest + [t], 0, timeoutMs, clock, reading)
    ensures StaleRun(rest, k - 1, timeoutMs, clock, reading + 1)
  {
    var next := reading + 1;
    assert !StaleAt(rest, k - 1, timeoutMs, clock, next) by {
      assert next + (k - 1) == reading + k;
    }
    forall i | 0 <= i < k - 1
      ensures StaleAt(rest, i, timeoutMs, clock, next)
    {
      assert StaleAt(rest + [t], i + 1, timeoutMs, clock, reading);
      assert next + i == reading + (i + 1);
    }
  }

  /** Exactly the stale run moves, in order, to the head of the queue; the first task still within
  its lease ends up at the other end of the processing list. */
  lemma {:induction false} RequeueMovesStaleRun(processing: seq<Task>, queue: seq<Task>, k: nat,
                                                timeoutMs: int, clock: nat -> int, reading: nat)
    requires StaleRun(processing, k, timeoutMs, clock, reading)
    ensures Requeue(processing, queue, timeoutMs, clock, reading) == MoveRun(processing, queue, k)
  {
    var n := |processing|;
    if k == 0 {
      assert !StaleAt(processing, 0, timeoutMs, clock, reading);
      assert processing[n..] + queue == queue;
    } else {
      var rest, t := processing[..n - 1], processing[n - 1];
      assert processing == rest + [t];
      StaleRunStep(rest, t, k, timeoutMs, clock, reading);
      MoveRunStep(rest, t, queue, k - 1);
      RequeueMovesStaleRun(rest, [t] + queue, k - 1, timeoutMs, clock, reading + 1);
    }
  }

  /** Whatever the clock says, no task is lost or duplicated. */
  lemma {:induction false} RequeueConserves(processing: seq<Task>, queue: seq<Task>,
                                            timeoutMs: int, clock: nat -> int, reading: nat)
    ensures var (p, q) := Requeue(processing, queue, timeoutMs, clock, reading);
      multiset(p) + multiset(q) == multiset(processing) + multiset(queue)
  {
    if processing != [] {
      var rest, t := processing[..|processing| - 1], processing[|processing| - 1];
      assert processing == rest + [t];
      RequeueConserves(rest, [t] + queue, timeoutMs, clock, reading + 1);
    }
  }

  ghost predicate AllStale(processing: seq<Task>, timeoutMs: int, clock: nat -> int, reading: nat) {
    forall i :: 0 <= i < |processing| ==> StaleAt(processing, i, timeoutMs, clock, reading)
  }

  lemma AllStaleStep(rest: seq<Task>, t: Task, timeoutMs: int, clock: nat -> int, reading: nat)
    ensures AllStale(rest + [t], timeoutMs, clock, reading)
       <==> Age(t, clock(reading)) >= timeoutMs && AllStale(rest, timeoutMs, clock, reading + 1)
  {
    var all, next := rest + [t], reading + 1;
    assert StaleAt(all, 0, timeoutMs, clock, reading) <==> Age(t, clock(reading)) >= timeoutMs;
    if AllStale(all, timeoutMs, clock, reading) {
      forall i | 0 <= i < |rest|
        ensures StaleAt(rest, i, timeoutMs, clock, next)
      {
        assert StaleAt(all, i + 1, timeoutMs, clock, reading);
        assert next + i == reading + (i + 1);
      }
    }
    if Age(t, clock(reading)) >= timeoutMs && AllStale(rest, timeoutMs, clock, reading + 1) {
      forall i | 0 <= i < |all|
        ensures StaleAt(all, i, timeoutMs, clock, reading)
      {
        if i > 0 {
          assert StaleAt(rest, i - 1, timeoutMs, clock, reading + 1);
          assert reading + 1 + (i - 1) == reading + i;
        }
      }
    }
  }

  /** Everything the dead consumer held is returned exactly when each task has outlived its lease, counted
  from the time of enqueueing, at the moment the loop gets to it. */
  lemma {:induction false} RequeueReturnsAllIff(processing: seq<Task>, queue: seq<Task>,
                                                timeoutMs: int, clock: nat -> int, reading: nat)
    ensures Requeue(processing, queue, timeoutMs, clock, reading).0 == []
       <==> AllStale(processing, timeoutMs, clock, reading)
  {
    if processing != [] {
      var rest, t := processing[..|processing| - 1], processing[|processing| - 1];
      assert processing == rest + [t];
      RequeueReturnsAllIff(rest, [t] + queue, timeoutMs, clock, reading + 1);
      AllStaleStep(rest, t, timeoutMs, clock, reading);
      hide AllStale;
    }
  }

  predicate Stale(t: Task, timeoutMs: int, nowMs: int) {
    Age(t, nowMs) >= timeoutMs
  }

  /** No stale task is on the left of one still within its lease. */
  predicate StaleOnTheRight(processing: seq<Task>, timeoutMs: int, nowMs: int) {
    forall i, j :: 0 <= i < j < |processing| && Stale(processing[i], timeoutMs, nowMs) ==>
      Stale(processing[j], timeoutMs, nowMs)
  }

  function Standing(nowMs: int): nat -> int {
    (reading: nat) => nowMs
  }

  /** The pass stops at the first task still within its lease, so it leaves stale tasks behind exactly
  when there are some on the left of such a task. */
  lemma {:induction false} NoneStaleLeftIff(processing: seq<Task>, queue: seq<Task>, timeoutMs: int, nowMs: int,
                                            reading: nat)
    ensures (forall t :: t in Requeue(processing, queue, timeoutMs, Standing(nowMs), reading).0 ==>
               !Stale(t, timeoutMs, nowMs))
       <==> StaleOnTheRight(processing, timeoutMs, nowMs)
  {
    if processing != [] {
      var rest, t := processing[..|processing| - 1], processing[|processing| - 1];
      assert processing == rest + [t];
      if Stale(t, timeoutMs, nowMs) {
        NoneStaleLeftIff(rest, [t] + queue, timeoutMs, nowMs, reading + 1);
        hide Stale, Standing;
        assert forall i :: 0 <= i < |rest| ==> processing[i] == rest[i];
      } else {
        assert Requeue(processing, queue, timeoutMs, Standing(nowMs), reading).0 == [t] + rest;
        hide Requeue, Stale, Standing;
        assert processing[|rest|] == t && forall i :: 0 <= i < |rest| ==> processing[i] == rest[i];
        if StaleOnTheRight(processing, timeoutMs, nowMs) {
          forall x | x in rest
            ensures !Stale(x, timeoutMs, nowMs)
          {
            var i :| 0 <= i < |rest| && rest[i] == x;
            assert !Stale(processing[|rest|], timeoutMs, nowMs);
          }
        }
      }
    }
  }

  /** A task enqueued at 0 stays behind one enqueued at 100: with a lease of 50 the pass at 120 stops at the
  newer one and rotates it to the other end. */
  lemma StaleStaysBehind(early: Task, late: Task)
    requires early.enqueuedMs == 0 && late.enqueuedMs == 100
    ensures Requeue([early, late], [], 50, Standing(120), 0) == ([late, early], [])
    ensures Stale(early, 50, 120) && !Stale(late, 50, 120)
  {
    assert [early, late][..1] == [early] && [late] + [early] == [late, early];
    assert Standing(120)(0) == 120;
  }

  // ---- The operations, undisturbed --------------------------------------------------------

  datatype EnqueueResult = Queued(task: Task) | UnknownQueue | Overloaded

  class RedisTaskQueue {
    var lists: Lists
    const maxDepth: int
    const visibilityTimeoutMs: int

    constructor (maxDepth: int, visibilityTimeoutMs: int)
      ensures lists == map[] && this.maxDepth == maxDepth && this.visibilityTimeoutMs == visibilityTimeoutMs
    {
      lists := map[];
      this.maxDepth, this.visibilityTimeoutMs := maxDepth, visibilityTimeoutMs;
    }

    method Enqueue(queue: string, job: string, payload: string, id: string, nowMs: int)
      returns (r: EnqueueResult)
      modifies this
      ensures r.UnknownQueue? <==> queue !in ALL_QUEUES
      ensures r.Overloaded? <==> queue in ALL_QUEUES && |At(old(lists), Queue(queue))| >= maxDepth
      ensures r.Queued? ==> r.task == Task(id, queue, job, payload, nowMs, 0)
      ensures lists == if r.Queued? then LPush(old(lists), Queue(queue), r.task) else old(lists)
    {
      if queue !in ALL_QUEUES {
        return UnknownQueue;
      }
      if |At(lists, Queue(queue))| >= maxDepth {
        return Overloaded;
      }
      var task := Task(id, queue, job, payload, nowMs, 0);
      lists := LPush(lists, Queue(queue), task);
      r := Queued(task);
    }

    /** The oldest task of the first queue that has one.  If none has, the blocking pop waits on the
    first queue: it takes what is pushed there in the meantime, `late`, or gives up. */
    method Reserve(queues: seq<string>, consumer: string, late: Option<Task>) returns (r: Option<Task>)
      requires queues != []
      modifies this
      ensures (forall q :: q in queues ==> At(old(lists), Queue(q)) == []) ==>
        && r == late
        && lists == (if late.None? then old(lists)
                     else RPopLPush(LPush(old(lists), Queue(queues[0]), late.value),
                                    Queue(queues[0]), Processing(queues[0], consumer)))
      ensures (exists q :: q in queues && At(old(lists), Queue(q)) != []) ==> exists i | 0 <= i < |queues| :: (
        && (forall j :: 0 <= j < i ==> At(old(lists), Queue(queues[j])) == [])
        && r == Rightmost(old(lists), Queue(queues[i])) && r.Some?
        && lists == RPopLPush(old(lists), Queue(queues[i]), Processing(queues[i], consumer)))
    {
      for i := 0 to |queues|
        invariant lists == old(lists)
        invariant forall j :: 0 <= j < i ==> At(lists, Queue(queues[j])) == []
      {
        r := Rightmost(lists, Queue(queues[i]));
        if r.Some? {
          lists := RPopLPush(lists, Queue(queues[i]), Processing(queues[i], consumer));
          return;
        }
      }
      if late.Some? {
        lists := LPush(lists, Queue(queues[0]), late.value);
      }
      r := Rightmost(lists, Queue(queues[0]));
      lists := RPopLPush(lists, Queue(queues[0]), Processing(queues[0], consumer));
    }

    method Ack(task: Task, consumer: string) returns (removed: bool)
      modifies this
      ensures lists == LRem(old(lists), Processing(task.queue, consumer), task)
      ensures removed <==> task in At(old(lists), Processing(task.queue, consumer))
    {
      removed := task in At(lists, Processing(task.queue, consumer));
      lists := LRem(lists, Processing(task.queue, consumer), task);
    }

    method Retry(task: Task, consumer: string, maxAttempts: int) returns (again: bool)
      modifies this
      ensures again <==> task.attempts + 1 < maxAttempts
      ensures lists == LPush(LRem(old(lists), Processing(task.queue, consumer), task),
                             RetryKey(task, maxAttempts), Again(task))
    {
      var _ := Ack(task, consumer);
      if task.attempts + 1 >= maxAttempts {
        lists := LPush(lists, Dead(task.queue), Again(task));
        return false;
      }
      lists := LPush(lists, Queue(task.queue), Again(task));
      again := true;
    }

    /** Returns the number of tasks moved; terminates because the processing list shrinks. */
    method RequeueStale(queue: string, consumer: string, clock: nat -> int) returns (moved: nat)
      modifies this
      ensures var (p, q) := Requeue(At(old(lists), Processing(queue, consumer)), At(old(lists), Queue(queue)),
                                    visibilityTimeoutMs, clock, 0);
        && At(lists, Processing(queue, consumer)) == p
        && At(lists, Queue(queue)) == q
        && moved == |q| - |At(old(lists), Queue(queue))|
      ensures forall k :: k != Processing(queue, consumer) && k != Queue(queue) ==> At(lists, k) == At(old(lists), k)
    {
      var processing := Processing(queue, consumer);
      moved := 0;
      ghost var goal := Requeue(At(lists, processing), At(lists, Queue(queue)), visibilityTimeoutMs, clock, 0);
      while true
        invariant goal == Requeue(At(lists, processing), At(lists, Queue(queue)), visibilityTimeoutMs, clock, moved)
        invariant moved == |At(lists, Queue(queue))| - |At(old(lists), Queue(queue))|
        invariant forall k :: k != processing && k != Queue(queue) ==> At(lists, k) == At(old(lists), k)
        decreases |At(lists, processing)|
      {
        var popped := Rightmost(lists, processing);
        lists := RPop(lists, processing);
        if popped.None? {
          break;
        }
        var task := popped.value;
        if Age(task, clock(moved)) < visibilityTimeoutMs {
          lists := LPush(lists, processing, task);
          break;
        }
        lists := LPush(lists, Queue(queue), task);
        moved := moved + 1;
      }
    }
  }
}
