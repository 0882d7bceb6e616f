/** What the delivery protocol guarantees over every run, and where it stops guaranteeing. */
module DeliverySafety {
  import opened Delivery
  import opened Jobs
  import opened TaskQueue

  function Initial(queues: seq<string>): World {
    World(queues, map[], map[], map[], map[], map[])
  }

  lemma InitialInv(queues: seq<string>)
    requires queues != []
    ensures Inv(Initial(queues))
  {
  }

  /** Run any interleaving of steps; the invariant holds throughout. */
  function Execute(w: World, steps: seq<Step>): (r: World)
    requires Inv(w)
    ensures Inv(r)
    decreases |steps|
  {
    if steps == [] then w
    else
      var before := Execute(w, steps[..|steps| - 1]);
      StepKeepsInv(before, steps[|steps| - 1]);
      Apply(before, steps[|steps| - 1])
  }

  lemma {:induction false} ExecuteMore(w: World, first: seq<Step>, rest: seq<Step>)
    requires Inv(w)
    ensures Execute(w, first + rest) == Execute(Execute(w, first), rest)
    decreases |rest|
  {
    hide Inv, Apply;
    if rest == [] {
      assert first + rest == first;
    } else {
      var all := first + rest;
      assert all[..|all| - 1] == first + rest[..|rest| - 1];
      ExecuteMore(w, first, rest[..|rest| - 1]);
    }
  }

  lemma ExecuteOne(w: World, step: Step)
    requires Inv(w)
    ensures Shape(w) && Execute(w, [step]) == Apply(w, step)
  {
    InvShape(w);
    hide Inv, Apply;
    assert [step][..0] == [];
    assert Execute(w, []) == w;
  }

  /** The state after a run of the whole system from empty lists and no jobs. */
  function Reached(queues: seq<string>, steps: seq<Step>): (w: World)
    requires queues != []
    ensures Inv(w)
  {
    InitialInv(queues);
    Execute(Initial(queues), steps)
  }

  // ---- Every task is in exactly one place -------------------------------------------------

  ghost predicate Held(w: World, c: string, id: string) {
    Gap(PointOf(w, c)) && PointOf(w, c).task.id == id
  }

  /** At every moment of every run a submitted task has one place: it is once in exactly that list,
  or in the hands of exactly that consumer between two commands, or acknowledged, or lost. */
  lemma ExactlyOnePlace(queues: seq<string>, steps: seq<Step>, id: string)
    requires queues != []
    requires id in Reached(queues, steps).where
    ensures var w := Reached(queues, steps);
      && (forall k :: HasId(At(w.lists, k), id) <==> w.where[id] == InList(k))
      && (forall c :: Held(w, c, id) <==> w.where[id] == InHand(c))
      && (forall k :: NoRepeats(At(w.lists, k)))
  {
    var w := Reached(queues, steps);
    forall k
      ensures HasId(At(w.lists, k), id) <==> w.where[id] == InList(k)
    {
      if HasId(At(w.lists, k), id) {
        var t :| t in At(w.lists, k) && t.id == id;
        PlacedAt(w.lists, w.where, k, t);
      }
    }
    forall c
      ensures Held(w, c, id) <==> w.where[id] == InHand(c)
    {
      assert Fits(w, c);
    }
  }

  /** A task is lost by one thing only: its consumer dies while holding it between the two commands
  of `retry` or of `requeue_stale`. */
  lemma LostExactlyInGaps(w: World, step: Step, id: string)
    requires Inv(w) && Shape(w) && id in w.where
    ensures var w' := Apply(w, step);
      id in w'.where &&
      (w'.where[id] == Lost <==>
        w.where[id] == Lost || (step.Crash? && Held(w, step.consumer, id)))
  {
    match step
    case Advance(c, choice) => AdvanceLosesNothing(w, c, choice, id);
    case _ =>
  }

  lemma AdvanceLosesNothing(w: World, c: string, choice: Choice, id: string)
    requires Inv(w) && Shape(w) && id in w.where
    ensures var w' := Consume(w, c, choice);
      id in w'.where && (w'.where[id] == Lost <==> w.where[id] == Lost)
  {
    assert Fits(w, c);
    var w' := Consume(w, c, choice);
    match PointOf(w, c)
    case Recovering(at) =>
      if at < |w.queues| && At(w.lists, Processing(w.queues[at], c)) != [] {
        TailPlaced(w, Processing(w.queues[at], c));
      }
    case Polling(at) =>
      var q := if at < |w.queues| then w.queues[at] else w.queues[0];
      if At(w.lists, Queue(q)) != [] {
        TailPlaced(w, Queue(q));
      }
    case Acking(t) => PlacedAt(w.lists, w.where, Processing(t.queue, c), t);
    case Giving(t) => PlacedAt(w.lists, w.where, Processing(t.queue, c), t);
    case _ =>
  }

  lemma TailPlaced(w: World, k: Key)
    requires QueueInv(w) && At(w.lists, k) != []
    ensures var t := Rightmost(w.lists, k).value; t.id in w.where && w.where[t.id] == InList(k)
  {
    PlacedAt(w.lists, w.where, k, Rightmost(w.lists, k).value);
  }

  /** No crash of the run falls into a gap. */
  ghost predicate NoGapCrash(w: World, steps: seq<Step>)
    requires Inv(w)
    decreases |steps|
  {
    steps == [] ||
    (&& NoGapCrash(w, steps[..|steps| - 1])
     && var last := steps[|steps| - 1];
        last.Crash? ==> !Gap(PointOf(Execute(w, steps[..|steps| - 1]), last.consumer)))
  }

  /** Outside the gaps delivery is at least once: crashes anywhere else lose nothing. */
  lemma {:induction false} NothingLostOutsideGaps(w: World, steps: seq<Step>, id: string)
    requires Inv(w) && NoGapCrash(w, steps) && id in w.where && w.where[id] != Lost
    ensures id in Execute(w, steps).where && Execute(w, steps).where[id] != Lost
    decreases |steps|
  {
    if steps != [] {
      var init, last := steps[..|steps| - 1], steps[|steps| - 1];
      NothingLostOutsideGaps(w, init, id);
      var before := Execute(w, init);
      InvShape(before);
      LostExactlyInGaps(before, last, id);
    }
  }

  /** The `i`-th step kills the consumer that holds the task between two commands. */
  ghost predicate LosesAt(w: World, steps: seq<Step>, i: nat, id: string)
    requires Inv(w) && i < |steps|
  {
    steps[i].Crash? && Held(Execute(w, steps[..i]), steps[i].consumer, id)
  }

  ghost predicate LostInRun(w: World, steps: seq<Step>, id: string)
    requires Inv(w)
  {
    exists i :: 0 <= i < |steps| && LosesAt(w, steps, i, id)
  }

  lemma LostInRunMore(w: World, steps: seq<Step>, id: string)
    requires Inv(w) && steps != []
    ensures LostInRun(w, steps, id) <==>
      LostInRun(w, steps[..|steps| - 1], id) || LosesAt(w, steps, |steps| - 1, id)
  {
    hide Inv, Execute, Held;
    var init := steps[..|steps| - 1];
    forall i | 0 <= i < |init|
      ensures LosesAt(w, steps, i, id) <==> LosesAt(w, init, i, id)
    {
      assert init[..i] == steps[..i];
    }
    hide LosesAt;
  }

  /** Over a whole run a task is lost exactly when it was, or when some step of the run is such a crash. */
  lemma {:induction false} LostAfterRunIff(w: World, steps: seq<Step>, id: string)
    requires Inv(w) && id in w.where
    ensures id in Execute(w, steps).where
    ensures Execute(w, steps).where[id] == Lost <==> w.where[id] == Lost || LostInRun(w, steps, id)
    decreases |steps|
  {
    if steps != [] {
      var init, last := steps[..|steps| - 1], steps[|steps| - 1];
      LostAfterRunIff(w, init, id);
      LostInRunMore(w, steps, id);
      InvShape(Execute(w, init));
      LostExactlyInGaps(Execute(w, init), last, id);
      hide Inv, Apply, LostInRun, Held;
    }
  }

  lemma TwoSteps(w: World, first: Step, second: Step)
    requires Inv(w)
    ensures Shape(w) && Inv(Apply(w, first)) && Shape(Apply(w, first))
    ensures Execute(w, [first, second]) == Apply(Apply(w, first), second)
  {
    StepKeepsInv(w, first);
    InvShape(Apply(w, first));
    hide Inv, Apply;
    assert [first, second][..1] == [first] && [first][..0] == [];
    assert Execute(w, [first]) == Apply(Execute(w, []), first);
  }

  /** The gap in `retry` is real: a crash right after the removal loses the task for good. */
  lemma RetryGapLosesTask(w: World, c: string, t: Task, choice: Choice)
    requires Inv(w) && Shape(w) && PointOf(w, c) == Giving(t)
    ensures var w' := Execute(w, [Advance(c, choice), Crash(c)]);
      && t.id in w'.where && w'.where[t.id] == Lost
      && forall k :: !HasId(At(w'.lists, k), t.id)
  {
    GivenUp(w, c, t, choice);
    assert Gap(Returning(t));
    hide *;
    TwoSteps(w, Advance(c, choice), Crash(c));
    CrashInGap(Apply(w, Advance(c, choice)), c);
  }

  /** So is the gap in `requeue_stale`, whether or not the lease had run out. */
  lemma RecoveryGapLosesTask(w: World, c: string, at: nat, choice: Choice)
    requires Inv(w) && Shape(w) && PointOf(w, c) == Recovering(at)
    requires at < |w.queues| && At(w.lists, Processing(w.queues[at], c)) != []
    ensures var w' := Execute(w, [Advance(c, choice), Crash(c)]);
      var t := Rightmost(w.lists, Processing(w.queues[at], c)).value;
      && t.id in w'.where && w'.where[t.id] == Lost
      && forall k :: !HasId(At(w'.lists, k), t.id)
  {
    var t := Rightmost(w.lists, Processing(w.queues[at], c)).value;
    PoppedUp(w, c, at, choice);
    assert Gap(Recovered(at, t));
    hide *;
    TwoSteps(w, Advance(c, choice), Crash(c));
    CrashInGap(Apply(w, Advance(c, choice)), c);
  }

  lemma GivenUp(w: World, c: string, t: Task, choice: Choice)
    requires Shape(w) && PointOf(w, c) == Giving(t)
    ensures PointOf(Apply(w, Advance(c, choice)), c) == Returning(t)
  {
  }

  lemma PoppedUp(w: World, c: string, at: nat, choice: Choice)
    requires Shape(w) && PointOf(w, c) == Recovering(at)
    requires at < |w.queues| && At(w.lists, Processing(w.queues[at], c)) != []
    ensures PointOf(Apply(w, Advance(c, choice)), c)
         == Recovered(at, Rightmost(w.lists, Processing(w.queues[at], c)).value)
  {
  }

  lemma CrashInGap(w: World, c: string)
    requires Inv(w) && Shape(w) && Gap(PointOf(w, c))
    ensures var w' := Apply(w, Crash(c));
      var id := PointOf(w, c).task.id;
      id in w'.where && w'.where[id] == Lost && forall k :: !HasId(At(w'.lists, k), id)
  {
    var id := PointOf(w, c).task.id;
    assert Fits(w, c);
    forall k
      ensures !HasId(At(w.lists, k), id)
    {
      if HasId(At(w.lists, k), id) {
        var t :| t in At(w.lists, k) && t.id == id;
        PlacedAt(w.lists, w.where, k, t);
        assert false;
      }
    }
  }

  // ---- A dead consumer --------------------------------------------------------------------

  /** While no process comes up under its name, nothing takes tasks off its processing lists. */
  lemma StrandedStep(w: World, step: Step, c: string, queue: string)
    requires Inv(w) && Shape(w) && PointOf(w, c).Down? && step != Start(c)
    ensures PointOf(Apply(w, step), c).Down?
    ensures At(Apply(w, step).lists, Processing(queue, c)) == At(w.lists, Processing(queue, c))
  {
    match step
    case Advance(d, choice) => if d != c { OtherConsumer(w, d, choice, c, queue); }
    case _ =>
  }

  lemma OtherConsumer(w: World, d: string, choice: Choice, c: string, queue: string)
    requires Shape(w) && d != c
    ensures PointOf(Consume(w, d, choice), c) == PointOf(w, c)
    ensures At(Consume(w, d, choice).lists, Processing(queue, c)) == At(w.lists, Processing(queue, c))
  {
    hide LPush, LRem, RPop, RPopLPush, Rightmost, At, RetryKey, Again, Handle, Report, MarkError;
    hide Take, PopProcessing, PushRecovered;
    match PointOf(w, d)
    case Recovering(at) => PopElsewhere(w, d, at, c, queue);
    case Recovered(at, t) => PushElsewhere(w, d, at, t, choice.withinLease, c, queue);
    case Polling(at) =>
      TakeElsewhere(w, d, if at < |w.queues| then w.queues[at] else w.queues[0],
                    if at < |w.queues| then Polling(at + 1) else Polling(0), c, queue);
    case Acking(t) => RemovedElsewhere(w.lists, Processing(t.queue, d), t, Processing(queue, c));
    case Giving(t) => RemovedElsewhere(w.lists, Processing(t.queue, d), t, Processing(queue, c));
    case Returning(t) =>
      NotProcessing(t);
      PushedElsewhere(w.lists, RetryKey(t, MAX_ATTEMPTS), Again(t), Processing(queue, c));
    case _ =>
  }

  lemma PopElsewhere(w: World, d: string, at: nat, c: string, queue: string)
    requires d != c
    ensures PointOf(PopProcessing(w, d, at), c) == PointOf(w, c)
    ensures At(PopProcessing(w, d, at).lists, Processing(queue, c)) == At(w.lists, Processing(queue, c))
  {
  }

  lemma PushElsewhere(w: World, d: string, at: nat, t: Task, withinLease: bool, c: string, queue: string)
    requires d != c && at < |w.queues|
    ensures PointOf(PushRecovered(w, d, at, t, withinLease), c) == PointOf(w, c)
    ensures At(PushRecovered(w, d, at, t, withinLease).lists, Processing(queue, c)) == At(w.lists, Processing(queue, c))
  {
  }

  lemma TakeElsewhere(w: World, d: string, q: string, otherwise: Point, c: string, queue: string)
    requires d != c
    ensures PointOf(Take(w, d, q, otherwise), c) == PointOf(w, c)
    ensures At(Take(w, d, q, otherwise).lists, Processing(queue, c)) == At(w.lists, Processing(queue, c))
  {
  }

  lemma NotProcessing(t: Task)
    ensures !RetryKey(t, MAX_ATTEMPTS).Processing?
  {
  }

  lemma PushedElsewhere(lists: Lists, k: Key, t: Task, other: Key)
    requires k != other
    ensures At(LPush(lists, k, t), other) == At(lists, other)
  {
  }

  lemma RemovedElsewhere(lists: Lists, k: Key, t: Task, other: Key)
    requires k != other
    ensures At(LRem(lists, k, t), other) == At(lists, other)
  {
  }

  /** A restart under another consumer name never recovers the tasks the dead one held. */
  lemma {:induction false} StrandedForever(w: World, steps: seq<Step>, c: string, queue: string)
    requires Inv(w) && PointOf(w, c).Down? && Start(c) !in steps
    ensures PointOf(Execute(w, steps), c).Down?
    ensures At(Execute(w, steps).lists, Processing(queue, c)) == At(w.lists, Processing(queue, c))
    decreases |steps|
  {
    if steps != [] {
      var init := steps[..|steps| - 1];
      StrandedForever(w, init, c, queue);
      InvShape(Execute(w, init));
      StrandedStep(Execute(w, init), steps[|steps| - 1], c, queue);
    }
  }

  // ---- Finished jobs ----------------------------------------------------------------------

  /** No command of anybody changes the state or the transcript of a finished job. */
  lemma FinishedStep(w: World, step: Step, job: string)
    requires Inv(w) && Shape(w) && JobFinished(w.jobs, job)
    ensures var jobs := Apply(w, step).jobs;
      job in jobs && jobs[job].state == w.jobs[job].state && jobs[job].segments == w.jobs[job].segments
  {
    match step
    case Advance(c, choice) =>
      var p := PointOf(w, c);
      assert Effects(w.jobs, p);
      FinishedCommand(w.jobs, job, p, choice);
      hide Inv, Handle, Report, MarkError, LPush, LRem, RPop, RPopLPush, Rightmost, RetryKey;
    case _ =>
  }

  /** The first report raises; nobody is past it. */
  lemma FinishedCommand(jobs: Runs, job: string, p: Point, choice: Choice)
    requires JobFinished(jobs, job) && Effects(jobs, p)
    ensures p.Working? ==> SameResult(jobs, Handle(jobs, p.task, p.stage, choice).0, job)
    ensures p.SettingError? ==> SameResult(jobs, MarkError(jobs, p.task.job), job)
    ensures p.SettingFailed? ==> SameResult(jobs, Report(jobs, p.task.job, FAILED), job)
  {
  }

  ghost predicate SameResult(jobs: Runs, jobs': Runs, job: string)
    requires job in jobs
  {
    job in jobs' && jobs'[job].state == jobs[job].state && jobs'[job].segments == jobs[job].segments
  }

  /** Once a job has succeeded, its state and its transcript stay as they are: redelivery, retries,
  dead-lettering and cancel requests have no effect on it. */
  lemma {:induction false} FinishedForever(w: World, steps: seq<Step>, job: string)
    requires Inv(w) && JobFinished(w.jobs, job)
    ensures SameResult(w.jobs, Execute(w, steps).jobs, job)
    decreases |steps|
  {
    if steps != [] {
      var init := steps[..|steps| - 1];
      FinishedForever(w, init, job);
      InvShape(Execute(w, init));
      FinishedStep(Execute(w, init), steps[|steps| - 1], job);
    }
  }

  /** An acknowledged task's job has succeeded and its transcript is stored. */
  lemma AcknowledgedIsFinished(queues: seq<string>, steps: seq<Step>, id: string)
    requires queues != []
    requires var w := Reached(queues, steps); id in w.where && w.where[id] == Done
    ensures var w := Reached(queues, steps);
      && id in w.jobOf && JobFinished(w.jobs, w.jobOf[id])
      && w.jobs[w.jobOf[id]].segments.Some?
  {
  }

  /** Two consumers never work on the same job at the same time. */
  lemma NeverTwoWorkers(queues: seq<string>, steps: seq<Step>, c: string, d: string)
    requires queues != []
    requires var w := Reached(queues, steps);
      PointOf(w, c).Working? && PointOf(w, d).Working? && PointOf(w, c).task.job == PointOf(w, d).task.job
    ensures c == d
  {
    OneWorkerPerJob(Reached(queues, steps), c, d);
  }

  /** A waiting task has attempts left; a dead-lettered one has used them all. */
  lemma AttemptsBounded(queues: seq<string>, steps: seq<Step>, k: Key, t: Task)
    requires queues != []
    requires t in At(Reached(queues, steps).lists, k)
    ensures if k.Dead? then t.attempts == MAX_ATTEMPTS else t.attempts < MAX_ATTEMPTS
  {
    assert TaskFits(k, t, Reached(queues, steps).jobOf);
  }
}
