/** What a consumer gets done when nobody is in its way.

A consumer that polls takes the oldest task of the first queue that has one, works it through to the
end and acknowledges it; an attempt that fails goes back as the newest task of its queue, or to the
dead letters when it was the last.
*/
module Progress {
  import opened Delivery
  import opened DeliverySafety
  import opened JobOutcomes
  import opened Jobs
  import opened Options
  import opened TaskQueue

  /** The consumer's next commands, with nothing in between. */
  function Turns(c: string, choices: seq<Choice>): seq<Step> {
    seq(|choices|, i requires 0 <= i < |choices| => Advance(c, choices[i]))
  }

  lemma TurnsFirst(w: World, c: string, choices: seq<Choice>)
    requires Inv(w) && choices != []
    ensures Shape(w) && Inv(Apply(w, Advance(c, choices[0])))
    ensures Execute(w, Turns(c, choices)) == Execute(Apply(w, Advance(c, choices[0])), Turns(c, choices[1..]))
  {
    StepKeepsInv(w, Advance(c, choices[0]));
    hide Inv, Apply, Execute;
    assert Turns(c, choices) == [Advance(c, choices[0])] + Turns(c, choices[1..]);
    ExecuteMore(w, [Advance(c, choices[0])], Turns(c, choices[1..]));
    ExecuteOne(w, Advance(c, choices[0]));
  }

  lemma TurnsNone(w: World, c: string)
    requires Inv(w)
    ensures Execute(w, Turns(c, [])) == w
  {
    hide Inv;
    assert Turns(c, []) == [];
  }

  // ---- Taking a task ----------------------------------------------------------------------

  lemma PollPasses(w: World, c: string, choice: Choice, at: nat)
    requires Shape(w) && PointOf(w, c) == Polling(at) && at < |w.queues|
    requires At(w.lists, Queue(w.queues[at])) == []
    ensures var w' := Apply(w, Advance(c, choice));
      PointOf(w', c) == Polling(at + 1) && w'.lists == w.lists && w'.queues == w.queues && w'.jobs == w.jobs
  {
    hide At;
  }

  /** `t` went from the right end of the queue to the left end of what `c` processes; nothing else moved. */
  ghost predicate Taken(before: Lists, after: Lists, queue: string, c: string, t: Task) {
    && At(before, Queue(queue)) == At(after, Queue(queue)) + [t]
    && At(after, Processing(queue, c)) == [t] + At(before, Processing(queue, c))
    && forall k :: k != Queue(queue) && k != Processing(queue, c) ==> At(after, k) == At(before, k)
  }

  lemma RPopLPushTakes(lists: Lists, queue: string, c: string)
    requires At(lists, Queue(queue)) != []
    ensures var list := At(lists, Queue(queue));
      Taken(lists, RPopLPush(lists, Queue(queue), Processing(queue, c)), queue, c, list[|list| - 1])
  {
    var list := At(lists, Queue(queue));
    assert list == list[..|list| - 1] + [list[|list| - 1]];
  }

  lemma PollTakes(w: World, c: string, choice: Choice, at: nat)
    requires Shape(w) && PointOf(w, c) == Polling(at)
    requires At(w.lists, Queue(w.queues[if at < |w.queues| then at else 0])) != []
    ensures var w', queue := Apply(w, Advance(c, choice)), w.queues[if at < |w.queues| then at else 0];
      var list := At(w.lists, Queue(queue));
      && PointOf(w', c) == Working(list[|list| - 1], 0) && w'.jobs == w.jobs
      && Taken(w.lists, w'.lists, queue, c, list[|list| - 1])
  {
    RPopLPushTakes(w.lists, w.queues[if at < |w.queues| then at else 0], c);
    hide At, RPopLPush, Taken;
    RightmostIs(w.lists, w.queues[if at < |w.queues| then at else 0]);
  }

  lemma RightmostIs(lists: Lists, queue: string)
    requires At(lists, Queue(queue)) != []
    ensures var list := At(lists, Queue(queue)); Rightmost(lists, Queue(queue)) == Some(list[|list| - 1])
  {
  }

  /** The first queue with a task is `goal`. */
  ghost predicate FirstWaiting(w: World, at: nat, goal: nat) {
    && at <= goal < |w.queues|
    && (forall i :: at <= i < goal ==> At(w.lists, Queue(w.queues[i])) == [])
    && At(w.lists, Queue(w.queues[goal])) != []
  }

  lemma FirstIs(w: World, at: nat, goal: nat)
    requires FirstWaiting(w, at, goal)
    ensures at <= goal < |w.queues| && At(w.lists, Queue(w.queues[goal])) != []
    ensures at < goal ==> At(w.lists, Queue(w.queues[at])) == []
  {
    hide At;
  }

  lemma FirstIsNext(w: World, w': World, at: nat, goal: nat)
    requires FirstWaiting(w, at, goal) && at < goal && w'.lists == w.lists && w'.queues == w.queues
    ensures FirstWaiting(w', at + 1, goal)
  {
    hide At;
  }

  /** A polling consumer takes the oldest task of the first queue that has one. */
  lemma {:induction false} TakesOldest(w: World, c: string, at: nat, goal: nat, choices: seq<Choice>)
    requires Inv(w) && PointOf(w, c) == Polling(at) && FirstWaiting(w, at, goal) && |choices| == goal - at + 1
    ensures var w', queue := Execute(w, Turns(c, choices)), w.queues[goal];
      var list := At(w.lists, Queue(queue));
      && PointOf(w', c) == Working(list[|list| - 1], 0) && w'.jobs == w.jobs
      && Taken(w.lists, w'.lists, queue, c, list[|list| - 1])
    decreases goal - at
  {
    hide *;
    FirstIs(w, at, goal);
    TurnsFirst(w, c, choices);
    if at == goal {
      PollTakes(w, c, choices[0], at);
      TurnsNone(Apply(w, Advance(c, choices[0])), c);
      assert choices[1..] == [];
    } else {
      PollPasses(w, c, choices[0], at);
      FirstIsNext(w, Apply(w, Advance(c, choices[0])), at, goal);
      TakesOldest(Apply(w, Advance(c, choices[0])), c, at + 1, goal, choices[1..]);
    }
  }

  // ---- Working it through -----------------------------------------------------------------

  ghost predicate NoneRaises(choices: seq<Choice>) {
    forall i :: 0 <= i < |choices| ==> !choices[i].raises
  }

  lemma NoneRaisesFirst(choices: seq<Choice>)
    requires NoneRaises(choices) && choices != []
    ensures !choices[0].raises && NoneRaises(choices[1..])
  {
  }

  /** One command of a worker whose job is not over. */
  lemma WorkOn(w: World, c: string, choice: Choice, t: Task, stage: nat)
    requires Shape(w) && PointOf(w, c) == Working(t, stage) && stage <= 7 && !choice.raises
    requires t.job in w.jobs && !Over(w.jobs[t.job].state)
    ensures var w' := Apply(w, Advance(c, choice));
      && PointOf(w', c) == (if stage < 7 then Working(t, stage + 1) else Acking(t))
      && w'.lists == w.lists && t.job in w'.jobs
      && (if stage < 7 then !Over(w'.jobs[t.job].state) else w'.jobs[t.job].state == FinalState(choice))
      && w'.jobs[t.job].segments == (if stage == 6 then Some(choice.segments) else w.jobs[t.job].segments)
  {
    WorkerGoesOn(w, c, choice, t, stage);
    StateAfterStep(w, Advance(c, choice), t.job);
    SegmentsAfterStep(w, Advance(c, choice), t.job);
    WorkKeepsLists(w, c, choice);
    hide Apply;
  }

  lemma WorkKeepsLists(w: World, c: string, choice: Choice)
    requires Shape(w) && PointOf(w, c).Working?
    ensures Apply(w, Advance(c, choice)).lists == w.lists
  {
    hide Handle;
  }

  /** Eight commands that do not fail bring the job to its end: the segments saved are those of the
  seventh, the final state is that of the eighth. */
  lemma {:induction false} WorksThrough(w: World, c: string, t: Task, stage: nat, choices: seq<Choice>)
    requires Inv(w) && PointOf(w, c) == Working(t, stage) && stage <= 7
    requires |choices| == 8 - stage && NoneRaises(choices)
    requires t.job in w.jobs && !Over(w.jobs[t.job].state)
    ensures var w' := Execute(w, Turns(c, choices));
      && PointOf(w', c) == Acking(t) && w'.lists == w.lists && t.job in w'.jobs
      && w'.jobs[t.job].state == FinalState(choices[|choices| - 1])
      && w'.jobs[t.job].segments
         == if stage <= 6 then Some(choices[6 - stage].segments) else w.jobs[t.job].segments
    decreases 8 - stage
  {
    hide *;
    TurnsFirst(w, c, choices);
    NoneRaisesFirst(choices);
    WorkOn(w, c, choices[0], t, stage);
    if stage == 7 {
      assert choices[1..] == [];
      TurnsNone(Apply(w, Advance(c, choices[0])), c);
    } else {
      WorksThrough(Apply(w, Advance(c, choices[0])), c, t, stage + 1, choices[1..]);
    }
  }

  lemma AckRemoves(w: World, c: string, choice: Choice, t: Task)
    requires Shape(w) && PointOf(w, c) == Acking(t)
    ensures var w' := Apply(w, Advance(c, choice));
      && PointOf(w', c) == Polling(0) && w'.jobs == w.jobs
      && t.id in w'.where && w'.where[t.id] == Done
      && At(w'.lists, Processing(t.queue, c)) == Without(At(w.lists, Processing(t.queue, c)), t)
      && forall k :: k != Processing(t.queue, c) ==> At(w'.lists, k) == At(w.lists, k)
  {
  }

  /** A consumer that polls finishes the oldest task of the first queue that has one, and polls again:
  its job ends in the state the pipeline reported with the segments it returned, the task is done, and
  no list has changed but the queue it came from. */
  lemma WaitingJobIsDone(w: World, c: string, goal: nat, polls: seq<Choice>, work: seq<Choice>, ack: Choice)
    requires Inv(w) && PointOf(w, c) == Polling(0) && FirstWaiting(w, 0, goal)
    requires |polls| == goal + 1 && |work| == 8 && NoneRaises(work)
    requires var list := At(w.lists, Queue(w.queues[goal]));
      var job := list[|list| - 1].job;
      job in w.jobs && !Over(w.jobs[job].state)
    ensures var w' := Execute(w, Turns(c, polls + work + [ack]));
      var list := At(w.lists, Queue(w.queues[goal]));
      var t := list[|list| - 1];
      && PointOf(w', c) == Polling(0)
      && t.job in w'.jobs && w'.jobs[t.job].state == FinalState(work[7])
      && w'.jobs[t.job].segments == Some(work[6].segments)
      && t.id in w'.where && w'.where[t.id] == Done
      && At(w'.lists, Queue(w.queues[goal])) == list[..|list| - 1]
      && forall k :: k != Queue(w.queues[goal]) ==> At(w'.lists, k) == At(w.lists, k)
  {
    hide *;
    FirstIs(w, 0, goal);
    var list := At(w.lists, Queue(w.queues[goal]));
    var t := list[|list| - 1];
    QueueOf(w, w.queues[goal], t);
    TurnsSplit(w, c, polls, work + [ack]);
    assert polls + (work + [ack]) == polls + work + [ack];
    TakesOldest(w, c, 0, goal, polls);
    var taken := Execute(w, Turns(c, polls));
    WorksAndAcks(taken, c, t, work, ack);
    TakenAndAcked(w.lists, taken.lists, Execute(taken, Turns(c, work + [ack])).lists, w.queues[goal], c, t);
  }

  lemma WorksAndAcks(w: World, c: string, t: Task, work: seq<Choice>, ack: Choice)
    requires Inv(w) && PointOf(w, c) == Working(t, 0) && |work| == 8 && NoneRaises(work)
    requires t.job in w.jobs && !Over(w.jobs[t.job].state)
    ensures var w' := Execute(w, Turns(c, work + [ack]));
      && PointOf(w', c) == Polling(0)
      && t.job in w'.jobs && w'.jobs[t.job].state == FinalState(work[7])
      && w'.jobs[t.job].segments == Some(work[6].segments)
      && t.id in w'.where && w'.where[t.id] == Done
      && At(w'.lists, Processing(t.queue, c)) == Without(At(w.lists, Processing(t.queue, c)), t)
      && forall k :: k != Processing(t.queue, c) ==> At(w'.lists, k) == At(w.lists, k)
  {
    hide *;
    TurnsSplit(w, c, work, [ack]);
    WorksThrough(w, c, t, 0, work);
    var worked := Execute(w, Turns(c, work));
    TurnsFirst(worked, c, [ack]);
    AckRemoves(worked, c, ack, t);
    assert [ack][1..] == [];
    TurnsNone(Apply(worked, Advance(c, ack)), c);
  }

  lemma TurnsSplit(w: World, c: string, first: seq<Choice>, rest: seq<Choice>)
    requires Inv(w)
    ensures Execute(w, Turns(c, first + rest)) == Execute(Execute(w, Turns(c, first)), Turns(c, rest))
  {
    hide Inv, Execute;
    assert Turns(c, first + rest) == Turns(c, first) + Turns(c, rest);
    ExecuteMore(w, Turns(c, first), Turns(c, rest));
  }

  lemma QueueOf(w: World, queue: string, t: Task)
    requires Inv(w) && t in At(w.lists, Queue(queue))
    ensures t.queue == queue
  {
    assert TaskFits(Queue(queue), t, w.jobOf);
  }

  lemma TakenAndAcked(before: Lists, taken: Lists, after: Lists, queue: string, c: string, t: Task)
    requires Taken(before, taken, queue, c, t)
    requires At(after, Processing(queue, c)) == Without(At(taken, Processing(queue, c)), t)
    requires forall k :: k != Processing(queue, c) ==> At(after, k) == At(taken, k)
    ensures At(before, Queue(queue)) == At(after, Queue(queue)) + [t]
    ensures forall k :: k != Queue(queue) ==> At(after, k) == At(before, k)
  {
    hide At;
    assert ([t] + At(before, Processing(queue, c)))[1..] == At(before, Processing(queue, c));
  }

  // ---- Failing ----------------------------------------------------------------------------

  lemma RaiseGives(w: World, c: string, choice: Choice, t: Task, stage: nat)
    requires Shape(w) && PointOf(w, c) == Working(t, stage) && choice.raises
    ensures var w' := Apply(w, Advance(c, choice));
      PointOf(w', c) == Giving(t) && w'.lists == w.lists && w'.jobs == w.jobs
  {
  }

  lemma GiveRemoves(w: World, c: string, choice: Choice, t: Task)
    requires Shape(w) && PointOf(w, c) == Giving(t)
    ensures var w' := Apply(w, Advance(c, choice));
      && PointOf(w', c) == Returning(t) && w'.jobs == w.jobs
      && At(w'.lists, Processing(t.queue, c)) == Without(At(w.lists, Processing(t.queue, c)), t)
      && forall k :: k != Processing(t.queue, c) ==> At(w'.lists, k) == At(w.lists, k)
  {
  }

  /** Where a failed attempt leaves the task. */
  function After(t: Task): Key {
    if t.attempts < 2 then Queue(t.queue) else Dead(t.queue)
  }

  lemma ReturnPushes(w: World, c: string, choice: Choice, t: Task)
    requires Shape(w) && PointOf(w, c) == Returning(t)
    ensures var w' := Apply(w, Advance(c, choice));
      && PointOf(w', c) == (if t.attempts < 2 then Polling(0) else SettingError(t)) && w'.jobs == w.jobs
      && At(w'.lists, After(t)) == [t.(attempts := t.attempts + 1)] + At(w.lists, After(t))
      && forall k :: k != After(t) ==> At(w'.lists, k) == At(w.lists, k)
  {
  }

  /** An attempt that fails returns the task as the newest of its queue with one more attempt counted; the
  third failure makes it a dead letter. */
  lemma FailedAttempt(w: World, c: string, t: Task, stage: nat, choices: seq<Choice>)
    requires Inv(w) && PointOf(w, c) == Working(t, stage) && |choices| == 3 && choices[0].raises
    ensures var w' := Execute(w, Turns(c, choices));
      && PointOf(w', c) == (if t.attempts < 2 then Polling(0) else SettingError(t)) && w'.jobs == w.jobs
      && At(w'.lists, After(t)) == [t.(attempts := t.attempts + 1)] + At(w.lists, After(t))
      && At(w'.lists, Processing(t.queue, c)) == Without(At(w.lists, Processing(t.queue, c)), t)
      && forall k :: k != After(t) && k != Processing(t.queue, c) ==> At(w'.lists, k) == At(w.lists, k)
  {
    AfterIsNotProcessing(t, c);
    hide *;
    TurnsFirst(w, c, choices);
    RaiseGives(w, c, choices[0], t, stage);
    var given := Apply(w, Advance(c, choices[0]));
    TurnsFirst(given, c, choices[1..]);
    GiveRemoves(given, c, choices[1], t);
    var removed := Apply(given, Advance(c, choices[1]));
    assert choices[1..][1..] == choices[2..];
    TurnsFirst(removed, c, choices[2..]);
    ReturnPushes(removed, c, choices[2], t);
    assert choices[2..][1..] == [];
    TurnsNone(Apply(removed, Advance(c, choices[2])), c);
  }

  lemma AfterIsNotProcessing(t: Task, c: string)
    ensures After(t) != Processing(t.queue, c)
  {
  }

  /** After the third failure the job gets an error code, and FAILED unless it was over. */
  lemma DeadLetterFailsJob(w: World, c: string, t: Task, choices: seq<Choice>)
    requires Inv(w) && PointOf(w, c) == SettingError(t) && |choices| == 2 && t.job in w.jobs
    ensures var w' := Execute(w, Turns(c, choices));
      && PointOf(w', c) == Polling(0) && w'.lists == w.lists
      && w'.jobs == w.jobs[t.job := w.jobs[t.job].(error := true,
           state := if Over(w.jobs[t.job].state) then w.jobs[t.job].state else FAILED)]
  {
    hide *;
    TurnsFirst(w, c, choices);
    ErrorSet(w, c, choices[0], t);
    var marked := Apply(w, Advance(c, choices[0]));
    TurnsFirst(marked, c, choices[1..]);
    FailureSet(marked, c, choices[1], t);
    assert choices[1..][1..] == [];
    TurnsNone(Apply(marked, Advance(c, choices[1])), c);
    assert w.jobs[t.job := marked.jobs[t.job]] == marked.jobs;
  }

  lemma ErrorSet(w: World, c: string, choice: Choice, t: Task)
    requires Shape(w) && PointOf(w, c) == SettingError(t) && t.job in w.jobs
    ensures var w' := Apply(w, Advance(c, choice));
      && PointOf(w', c) == SettingFailed(t) && w'.lists == w.lists
      && w'.jobs == w.jobs[t.job := w.jobs[t.job].(error := true)]
  {
  }

  lemma FailureSet(w: World, c: string, choice: Choice, t: Task)
    requires Shape(w) && PointOf(w, c) == SettingFailed(t) && t.job in w.jobs
    ensures var w' := Apply(w, Advance(c, choice));
      && PointOf(w', c) == Polling(0) && w'.lists == w.lists
      && w'.jobs == w.jobs[t.job := w.jobs[t.job].(
           state := if Over(w.jobs[t.job].state) then w.jobs[t.job].state else FAILED)]
  {
  }

  // ---- Recovering -------------------------------------------------------------------------

  /** What the environment decides while one list is recovered at this clock: whether each task is still
  within its lease when it is read. */
  function Leases(processing: seq<Task>, timeoutMs: int, clock: nat -> int, reading: nat): seq<Choice> {
    if processing == [] then [Read(false)]
    else if Age(processing[|processing| - 1], clock(reading)) < timeoutMs then [Read(false), Read(true)]
    else [Read(false), Read(false)] + Leases(processing[..|processing| - 1], timeoutMs, clock, reading + 1)
  }

  function Read(withinLease: bool): Choice {
    Choice(withinLease, false, false, false, "")
  }

  /** Only these two lists differ. */
  ghost predicate Elsewhere(before: Lists, after: Lists, queue: string, c: string) {
    forall k :: k != Queue(queue) && k != Processing(queue, c) ==> At(after, k) == At(before, k)
  }

  lemma PopEnds(w: World, c: string, at: nat, choice: Choice)
    requires Shape(w) && PointOf(w, c) == Recovering(at) && at < |w.queues|
    requires At(w.lists, Processing(w.queues[at], c)) == []
    ensures var w' := Apply(w, Advance(c, choice));
      PointOf(w', c) == Recovering(at + 1) && w'.lists == w.lists && w'.jobs == w.jobs && w'.queues == w.queues
  {
  }

  lemma PopTakes(w: World, c: string, at: nat, choice: Choice)
    requires Shape(w) && PointOf(w, c) == Recovering(at) && at < |w.queues|
    requires At(w.lists, Processing(w.queues[at], c)) != []
    ensures var w' := Apply(w, Advance(c, choice));
      var k := Processing(w.queues[at], c);
      var list := At(w.lists, k);
      && PointOf(w', c) == Recovered(at, list[|list| - 1]) && w'.jobs == w.jobs && w'.queues == w.queues
      && At(w'.lists, k) == list[..|list| - 1]
      && forall other :: other != k ==> At(w'.lists, other) == At(w.lists, other)
  {
  }

  lemma PushGoesOn(w: World, c: string, at: nat, t: Task, choice: Choice)
    requires Shape(w) && PointOf(w, c) == Recovered(at, t) && at < |w.queues|
    ensures var w' := Apply(w, Advance(c, choice));
      var k := if choice.withinLease then Processing(w.queues[at], c) else Queue(w.queues[at]);
      && PointOf(w', c) == Recovering(if choice.withinLease then at + 1 else at)
      && w'.jobs == w.jobs && w'.queues == w.queues && At(w'.lists, k) == [t] + At(w.lists, k)
      && forall other :: other != k ==> At(w'.lists, other) == At(w.lists, other)
  {
  }

  /** The two commands on one task. */
  lemma ReadsOne(w: World, c: string, at: nat, first: Choice, second: Choice, rest: seq<Choice>) returns (w': World)
    requires Inv(w) && PointOf(w, c) == Recovering(at) && at < |w.queues|
    requires At(w.lists, Processing(w.queues[at], c)) != []
    ensures Inv(w') && Execute(w, Turns(c, [first, second] + rest)) == Execute(w', Turns(c, rest))
    ensures var p, q := Processing(w.queues[at], c), Queue(w.queues[at]);
      var list := At(w.lists, p);
      var init, t := list[..|list| - 1], list[|list| - 1];
      && PointOf(w', c) == Recovering(if second.withinLease then at + 1 else at)
      && w'.jobs == w.jobs && w'.queues == w.queues
      && At(w'.lists, p) == (if second.withinLease then [t] + init else init)
      && At(w'.lists, q) == (if second.withinLease then At(w.lists, q) else [t] + At(w.lists, q))
      && Elsewhere(w.lists, w'.lists, w.queues[at], c)
  {
    hide Inv, Shape, Apply, Execute, Turns, At, PointOf;
    var choices := [first, second] + rest;
    TurnsFirst(w, c, choices);
    PopTakes(w, c, at, first);
    var popped := Apply(w, Advance(c, first));
    assert choices[1..] == [second] + rest;
    TurnsFirst(popped, c, choices[1..]);
    PushGoesOn(popped, c, at, At(w.lists, Processing(w.queues[at], c))[|At(w.lists, Processing(w.queues[at], c))| - 1],
               second);
    w' := Apply(popped, Advance(c, second));
    assert choices[1..][1..] == rest;
  }

  /** The commands of a recovery that nobody interrupts compute the requeue of the whole list, and go on
  to the next queue. */
  lemma {:induction false} RecoveryIsRequeue(w: World, c: string, at: nat, timeoutMs: int, clock: nat -> int,
                                             reading: nat)
    requires Inv(w) && PointOf(w, c) == Recovering(at) && at < |w.queues|
    ensures var queue := w.queues[at];
      var before := At(w.lists, Processing(queue, c));
      var w' := Execute(w, Turns(c, Leases(before, timeoutMs, clock, reading)));
      && PointOf(w', c) == Recovering(at + 1) && w'.jobs == w.jobs
      && (At(w'.lists, Processing(queue, c)), At(w'.lists, Queue(queue)))
         == Requeue(before, At(w.lists, Queue(queue)), timeoutMs, clock, reading)
      && Elsewhere(w.lists, w'.lists, queue, c)
    decreases |At(w.lists, Processing(w.queues[at], c))|
  {
    var queue := w.queues[at];
    var before := At(w.lists, Processing(queue, c));
    var choices := Leases(before, timeoutMs, clock, reading);
    if before == [] {
      TurnsFirst(w, c, choices);
      assert choices[1..] == [];
      PopEnds(w, c, at, choices[0]);
      TurnsNone(Apply(w, Advance(c, choices[0])), c);
      hide Inv, Shape, Apply, Execute, Turns, At, PointOf;
    } else {
      hide Inv, Shape, Apply, Execute, Turns, At, PointOf, Age;
      var within := Age(before[|before| - 1], clock(reading)) < timeoutMs;
      var rest := if within then [] else Leases(before[..|before| - 1], timeoutMs, clock, reading + 1);
      assert choices == [Read(false), Read(within)] + rest;
      var w1 := ReadsOne(w, c, at, Read(false), Read(within), rest);
      if within {
        TurnsNone(w1, c);
      } else {
        RecoveryIsRequeue(w1, c, at, timeoutMs, clock, reading + 1);
      }
    }
  }

  // ---- Submitting -------------------------------------------------------------------------

  /** A new job is queued, without segments or error; a job that exists stays as it is. */
  lemma JobCreated(w: World, job: string)
    requires Shape(w)
    ensures var w' := Apply(w, CreateJob(job));
      && w' == w.(jobs := w'.jobs)
      && w'.jobs == if job in w.jobs then w.jobs else w.jobs[job := Run(QUEUED, None, false)]
  {
  }

  /** The first task of a job becomes the newest of its queue, unless that is full; then the job is
  cancelled if it is not over.  Nothing else is ever enqueued. */
  lemma TaskEnqueued(w: World, t: Task, full: bool)
    requires Shape(w)
    ensures var w' := Apply(w, Enqueue(t, full));
      var first := t.job in w.jobs && t.id !in w.where && t.attempts == 0
        && forall id :: id in w.jobOf ==> w.jobOf[id] != t.job;
      && w'.points == w.points && w'.queues == w.queues
      && (forall k :: At(w'.lists, k)
            == if first && !full && k == Queue(t.queue) then [t] + At(w.lists, k) else At(w.lists, k))
      && w'.jobs == (if first && full && !Over(w.jobs[t.job].state)
                     then w.jobs[t.job := w.jobs[t.job].(state := CANCELLED)] else w.jobs)
  {
  }
}
