/** When a job carries an error code: exactly from the first dead-lettered failure on, finished or not. */
module ErrorCodes {
  import opened Delivery
  import opened DeliverySafety
  import opened Jobs
  import opened Options
  import opened TaskQueue

  predicate HasError(jobs: Runs, job: string) {
    job in jobs && jobs[job].error
  }

  /** The step is the `set_error` of a consumer whose task for this job has run out of attempts. */
  predicate SetsError(w: World, step: Step, job: string) {
    step.Advance? && PointOf(w, step.consumer).SettingError? && PointOf(w, step.consumer).task.job == job
  }

  lemma HandleKeepsErrors(jobs: Runs, t: Task, stage: nat, choice: Choice, job: string)
    requires job in jobs
    ensures HasError(Handle(jobs, t, stage, choice).0, job) <==> HasError(jobs, job)
  {
  }

  lemma ConsumeErrorIff(w: World, c: string, choice: Choice, job: string)
    requires Shape(w) && job in w.jobs
    ensures HasError(Consume(w, c, choice).jobs, job) <==>
      HasError(w.jobs, job) || (PointOf(w, c).SettingError? && PointOf(w, c).task.job == job)
  {
    hide Handle, LPush, LRem, RPop, RPopLPush, Rightmost, RetryKey, Again;
    match PointOf(w, c)
    case Working(t, stage) => HandleKeepsErrors(w.jobs, t, stage, choice, job);
    case _ =>
  }

  /** A step leaves an error code exactly when there was one or it sets one. */
  lemma StepErrorIff(w: World, step: Step, job: string)
    requires Shape(w) && job in w.jobs
    ensures job in Apply(w, step).jobs
    ensures HasError(Apply(w, step).jobs, job) <==> HasError(w.jobs, job) || SetsError(w, step, job)
  {
    match step
    case Advance(c, choice) =>
      ConsumeErrorIff(w, c, choice, job);
      ConsumeKeepsJobs(w, c, choice, job);
      hide Consume;
    case _ =>
  }

  lemma ConsumeKeepsJobs(w: World, c: string, choice: Choice, job: string)
    requires Shape(w) && job in w.jobs
    ensures job in Consume(w, c, choice).jobs
  {
    hide LPush, LRem, RPop, RPopLPush, Rightmost, RetryKey, Again, Handle, Report, MarkError;
    match PointOf(w, c)
    case Working(t, stage) => HandleStays(w.jobs, t, stage, choice);
    case SettingError(t) => ReportsKeepJobs(w.jobs, t.job);
    case SettingFailed(t) => ReportsKeepJobs(w.jobs, t.job);
    case _ =>
  }

  /** The `i`-th step of a run sets the error code. */
  predicate SetsErrorAt(w: World, steps: seq<Step>, i: nat, job: string)
    requires Inv(w) && i < |steps|
  {
    SetsError(Execute(w, steps[..i]), steps[i], job)
  }

  /** Some step of the run sets the error code of the job. */
  ghost predicate SetInRun(w: World, steps: seq<Step>, job: string)
    requires Inv(w)
  {
    exists i :: 0 <= i < |steps| && SetsErrorAt(w, steps, i, job)
  }

  /** A job has an error code after a run exactly when it had one or some step of the run set it:
  whether it had succeeded in between does not matter. */
  lemma {:induction false} ErrorAfterRunIff(w: World, steps: seq<Step>, job: string)
    requires Inv(w) && job in w.jobs
    ensures job in Execute(w, steps).jobs
    ensures HasError(Execute(w, steps).jobs, job)
       <==> HasError(w.jobs, job) || SetInRun(w, steps, job)
    decreases |steps|
  {
    if steps != [] {
      var init, last := steps[..|steps| - 1], steps[|steps| - 1];
      ErrorAfterRunIff(w, init, job);
      InvShape(Execute(w, init));
      StepErrorIff(Execute(w, init), last, job);
      hide Inv, Apply, SetsError;
      SetsErrorPrefix(w, steps, job);
    }
  }

  lemma SetsErrorPrefix(w: World, steps: seq<Step>, job: string)
    requires Inv(w) && steps != []
    ensures SetInRun(w, steps, job)
       <==> SetsError(Execute(w, steps[..|steps| - 1]), steps[|steps| - 1], job)
            || SetInRun(w, steps[..|steps| - 1], job)
  {
    hide Inv, Execute, SetsError, SetsErrorAt;
    var init := steps[..|steps| - 1];
    forall i | 0 <= i < |init|
      ensures SetsErrorAt(w, init, i, job) <==> SetsErrorAt(w, steps, i, job)
    {
      SetsErrorSame(w, steps, i, job);
    }
    SetsErrorLast(w, steps, job);
  }

  lemma SetsErrorSame(w: World, steps: seq<Step>, i: nat, job: string)
    requires Inv(w) && i < |steps| - 1
    ensures SetsErrorAt(w, steps[..|steps| - 1], i, job) <==> SetsErrorAt(w, steps, i, job)
  {
    hide Inv, Execute, SetsError;
    assert steps[..|steps| - 1][..i] == steps[..i];
  }

  lemma SetsErrorLast(w: World, steps: seq<Step>, job: string)
    requires Inv(w) && steps != []
    ensures SetsErrorAt(w, steps, |steps| - 1, job)
       <==> SetsError(Execute(w, steps[..|steps| - 1]), steps[|steps| - 1], job)
  {
    hide Inv, Execute, SetsError;
  }

  // ---- A succeeded job with an error code -------------------------------------------------

  /** One consumer on one queue, on its own. */
  datatype Solo = Solo(point: Point, queue: seq<Task>, processing: seq<Task>, jobs: Runs)

  /** The shared part of a world that one consumer on one queue sees. */
  ghost predicate Sees(w: World, c: string, q: string, m: Solo) {
    && w.queues == [q] && PointOf(w, c) == m.point
    && At(w.lists, Queue(q)) == m.queue && At(w.lists, Processing(q, c)) == m.processing && w.jobs == m.jobs
  }

  ghost predicate Shows(w: World, c: string, q: string, m: Solo) {
    Inv(w) && Shape(w) && Sees(w, c, q, m)
  }

  predicate Carries(p: Point) {
    !p.Down? && !p.Recovering? && !p.Polling?
  }

  predicate OwnTask(m: Solo, q: string) {
    && (forall t :: t in m.queue ==> t.queue == q) && (forall t :: t in m.processing ==> t.queue == q)
    && (Carries(m.point) ==> m.point.task.queue == q)
    && (m.point.Recovered? ==> m.point.at == 0)
  }

  /** The lease has run out, nothing raises, there is overlap, nothing degrades. */
  const CHOICE := Choice(false, false, true, false, "")

  function Pop(m: Solo, otherwise: Point): Solo {
    if m.queue == [] then m.(point := otherwise)
    else
      var t := m.queue[|m.queue| - 1];
      m.(point := Working(t, 0), queue := m.queue[..|m.queue| - 1], processing := [t] + m.processing)
  }

  function Forward(m: Solo): Solo {
    match m.point
    case Down => m
    case Recovering(at) =>
      if at >= 1 then m.(point := Polling(0))
      else if m.processing == [] then m.(point := Recovering(at + 1))
      else m.(point := Recovered(at, m.processing[|m.processing| - 1]),
              processing := m.processing[..|m.processing| - 1])
    case Recovered(at, t) => m.(point := Recovering(at), queue := [t] + m.queue)
    case Polling(at) => Pop(m, if at < 1 then Polling(at + 1) else Polling(0))
    case Working(t, stage) =>
      m.(jobs := Handle(m.jobs, t, stage, CHOICE).0, point := Handle(m.jobs, t, stage, CHOICE).1)
    case Acking(t) => m.(point := Polling(0), processing := Without(m.processing, t))
    case Giving(t) => m.(point := Returning(t), processing := Without(m.processing, t))
    case Returning(t) =>
      if t.attempts + 1 >= MAX_ATTEMPTS then m.(point := SettingError(t))
      else m.(point := Polling(0), queue := [Again(t)] + m.queue)
    case SettingError(t) => m.(jobs := MarkError(m.jobs, t.job), point := SettingFailed(t))
    case SettingFailed(t) => m.(jobs := Report(m.jobs, t.job, FAILED), point := Polling(0))
  }

  lemma ForwardShows(w: World, c: string, q: string, m: Solo)
    requires Shows(w, c, q, m) && OwnTask(m, q)
    ensures Shows(Apply(w, Advance(c, CHOICE)), c, q, Forward(m))
    ensures OwnTask(Forward(m), q)
  {
    StepKeepsInv(w, Advance(c, CHOICE));
    InvShape(Apply(w, Advance(c, CHOICE)));
    ForwardMatches(w, c, q, m);
    ForwardOwns(m, q);
    hide Inv, Shape, Apply, Forward, OwnTask, Sees;
  }

  lemma RecoveringMatches(w: World, c: string, q: string, m: Solo, at: nat)
    requires Sees(w, c, q, m) && m.point == Recovering(at)
    ensures Sees(PopProcessing(w, c, at), c, q, Forward(m))
  {
  }

  lemma RecoveredMatches(w: World, c: string, q: string, m: Solo, t: Task)
    requires Sees(w, c, q, m) && m.point == Recovered(0, t)
    ensures Sees(PushRecovered(w, c, 0, t, false), c, q, Forward(m))
  {
  }

  lemma PollingMatches(w: World, c: string, q: string, m: Solo, at: nat)
    requires Sees(w, c, q, m) && m.point == Polling(at)
    ensures Sees(Poll(w, c, at), c, q, Forward(m))
  {
  }

  lemma RemovalMatches(w: World, c: string, q: string, m: Solo, t: Task, place: Place)
    requires Sees(w, c, q, m) && t.queue == q && (m.point == Acking(t) || m.point == Giving(t))
    ensures Sees(Remove(w, c, t, place, Forward(m).point), c, q, Forward(m))
  {
    hide Without;
  }

  lemma ReturningMatches(w: World, c: string, q: string, m: Solo, t: Task)
    requires Sees(w, c, q, m) && t.queue == q && m.point == Returning(t)
    ensures Sees(PushRetried(w, c, t), c, q, Forward(m))
  {
  }

  lemma JobMatches(w: World, c: string, q: string, m: Solo)
    requires Shape(w) && Sees(w, c, q, m) && (m.point.Working? || m.point.SettingError? || m.point.SettingFailed?)
    ensures Sees(Consume(w, c, CHOICE), c, q, Forward(m))
  {
    hide Handle, Report, MarkError;
  }

  lemma ForwardMatches(w: World, c: string, q: string, m: Solo)
    requires Shape(w) && Sees(w, c, q, m) && OwnTask(m, q)
    ensures Sees(Apply(w, Advance(c, CHOICE)), c, q, Forward(m))
  {
    hide PopProcessing, PushRecovered, Poll, Remove, PushRetried, Handle, Report, MarkError, At;
    match m.point
    case Down =>
    case Recovering(at) => RecoveringMatches(w, c, q, m, at);
    case Recovered(at, t) => RecoveredMatches(w, c, q, m, t);
    case Polling(at) => PollingMatches(w, c, q, m, at);
    case Acking(t) => RemovalMatches(w, c, q, m, t, Done);
    case Giving(t) => RemovalMatches(w, c, q, m, t, InHand(c));
    case Returning(t) => ReturningMatches(w, c, q, m, t);
    case _ => JobMatches(w, c, q, m);
  }

  lemma ForwardOwns(m: Solo, q: string)
    requires OwnTask(m, q)
    ensures OwnTask(Forward(m), q)
  {
    if m.point.Acking? || m.point.Giving? {
      WithoutFewer(m.processing, m.point.task);
    }
    hide Report, MarkError, CanReport, Without;
  }

  lemma {:induction false} WithoutFewer(list: seq<Task>, t: Task)
    ensures forall x :: x in Without(list, t) ==> x in list
  {
    if list != [] && list[0] != t {
      WithoutFewer(list[1..], t);
      assert list == [list[0]] + list[1..];
    }
  }

  function ForwardTimes(m: Solo, n: nat): Solo
    decreases n
  {
    if n == 0 then m else ForwardTimes(Forward(m), n - 1)
  }

  function Advances(c: string, n: nat): seq<Step> {
    if n == 0 then [] else [Advance(c, CHOICE)] + Advances(c, n - 1)
  }

  lemma NoAdvances(w: World, c: string, m: Solo)
    requires Inv(w)
    ensures Execute(w, Advances(c, 0)) == w && ForwardTimes(m, 0) == m
  {
    hide Inv;
  }

  lemma MoreAdvances(c: string, m: Solo, n: nat)
    requires n > 0
    ensures Advances(c, n) == [Advance(c, CHOICE)] + Advances(c, n - 1)
    ensures ForwardTimes(m, n) == ForwardTimes(Forward(m), n - 1)
  {
    hide Forward;
  }

  lemma ShowsInv(w: World, c: string, q: string, m: Solo)
    requires Shows(w, c, q, m)
    ensures Inv(w) && Shape(w)
  {
    hide Inv, Shape, Sees;
  }

  lemma {:induction false} AdvancesShow(w: World, c: string, q: string, m: Solo, n: nat)
    requires Inv(w) && Shows(w, c, q, m) && OwnTask(m, q)
    ensures Shows(Execute(w, Advances(c, n)), c, q, ForwardTimes(m, n)) && OwnTask(ForwardTimes(m, n), q)
    decreases n
  {
    hide *;
    if n == 0 {
      NoAdvances(w, c, m);
    } else {
      var w' := OneAdvance(w, c, q, m, n);
      AdvancesShow(w', c, q, Forward(m), n - 1);
    }
  }

  lemma OneAdvance(w: World, c: string, q: string, m: Solo, n: nat) returns (w': World)
    requires Inv(w) && Shows(w, c, q, m) && OwnTask(m, q) && n > 0
    ensures Inv(w') && Shows(w', c, q, Forward(m)) && OwnTask(Forward(m), q)
    ensures Execute(w, Advances(c, n)) == Execute(w', Advances(c, n - 1))
    ensures ForwardTimes(m, n) == ForwardTimes(Forward(m), n - 1)
  {
    hide *;
    ShowsInv(w, c, q, m);
    w' := Apply(w, Advance(c, CHOICE));
    ForwardShows(w, c, q, m);
    ShowsInv(w', c, q, Forward(m));
    MoreAdvances(c, m, n);
    ExecuteOne(w, Advance(c, CHOICE));
    ExecuteMore(w, [Advance(c, CHOICE)], Advances(c, n - 1));
  }

  lemma ForwardAgain(m: Solo, a: nat, b: nat)
    ensures ForwardTimes(m, a + b) == ForwardTimes(ForwardTimes(m, a), b)
    decreases a
  {
    if a > 0 {
      ForwardAgain(Forward(m), a - 1, b);
    }
  }

  // ---- The states of the run --------------------------------------------------------------

  function OneJob(job: string, state: JobState, saved: bool, error: bool): Runs {
    map[job := Run(state, if saved then Some("") else None, error)]
  }

  function Tried(q: string, job: string, attempts: nat): Task {
    Task("task", q, job, "", 0, attempts)
  }

  /** Two empty recovery commands, the reservation, eight commands of the pipeline. */
  lemma PipelineSucceeds(q: string, job: string, n: nat)
    requires n == 11
    ensures ForwardTimes(Solo(Recovering(0), [Tried(q, job, 0)], [], OneJob(job, QUEUED, false, false)), n)
         == Solo(Acking(Tried(q, job, 0)), [], [Tried(q, job, 0)], OneJob(job, SUCCEEDED, true, false))
  {
    var t := Tried(q, job, 0);
    var m0 := Solo(Recovering(0), [t], [], OneJob(job, QUEUED, false, false));
    var m3 := Solo(Working(t, 0), [], [t], OneJob(job, QUEUED, false, false));
    assert ForwardTimes(m0, 3) == m3 by {
      assert Forward(m0) == m0.(point := Recovering(1));
      assert Forward(m0.(point := Recovering(1))) == m0.(point := Polling(0));
      assert [t][..0] == [] && [t] + [] == [t];
      assert Forward(m0.(point := Polling(0))) == m3;
      ThreeForward(m0);
    }
    StagesForward(t, job, 8);
    ForwardAgain(m0, 3, 8);
  }

  lemma ThreeForward(m: Solo)
    ensures ForwardTimes(m, 3) == Forward(Forward(Forward(m)))
  {
    assert ForwardTimes(Forward(Forward(Forward(m))), 0) == Forward(Forward(Forward(m)));
    assert ForwardTimes(Forward(Forward(m)), 1) == Forward(Forward(Forward(m)));
    assert ForwardTimes(Forward(m), 2) == Forward(Forward(Forward(m)));
  }

  /** The report of one stage. */
  lemma StageForward(t: Task, job: string, stage: nat, state: JobState, next: JobState)
    requires t.job == job && stage < 6 && !Terminal(state) && next == STAGES[stage]
    ensures Forward(Solo(Working(t, stage), [], [t], OneJob(job, state, false, false)))
         == Solo(Working(t, stage + 1), [], [t], OneJob(job, next, false, false))
  {
    var jobs := OneJob(job, state, false, false);
    assert jobs[job := jobs[job].(state := next)] == OneJob(job, next, false, false);
  }

  lemma StagesForward(t: Task, job: string, n: nat)
    requires t.job == job && n == 8
    ensures ForwardTimes(Solo(Working(t, 0), [], [t], OneJob(job, QUEUED, false, false)), n)
         == Solo(Acking(t), [], [t], OneJob(job, SUCCEEDED, true, false))
  {
    hide *;
    FirstStages(t, job);
    LastStages(t, job);
    SaveForward(t, job);
    EightForward(Solo(Working(t, 0), [], [t], OneJob(job, QUEUED, false, false)),
                 Solo(Working(t, 3), [], [t], OneJob(job, TRANSCRIBING, false, false)),
                 Solo(Working(t, 6), [], [t], OneJob(job, FUSING, false, false)));
  }

  lemma FirstStages(t: Task, job: string)
    requires t.job == job
    ensures Forward(Forward(Forward(Solo(Working(t, 0), [], [t], OneJob(job, QUEUED, false, false)))))
         == Solo(Working(t, 3), [], [t], OneJob(job, TRANSCRIBING, false, false))
  {
    StageForward(t, job, 0, QUEUED, PREPROCESSING);
    StageForward(t, job, 1, PREPROCESSING, DIARIZING);
    StageForward(t, job, 2, DIARIZING, TRANSCRIBING);
    hide Forward, OneJob;
  }

  lemma LastStages(t: Task, job: string)
    requires t.job == job
    ensures Forward(Forward(Forward(Solo(Working(t, 3), [], [t], OneJob(job, TRANSCRIBING, false, false)))))
         == Solo(Working(t, 6), [], [t], OneJob(job, FUSING, false, false))
  {
    StageForward(t, job, 3, TRANSCRIBING, SEPARATING);
    StageForward(t, job, 4, SEPARATING, LINKING);
    StageForward(t, job, 5, LINKING, FUSING);
    hide Forward, OneJob;
  }

  lemma EightForward(m: Solo, m3: Solo, m6: Solo)
    requires Forward(Forward(Forward(m))) == m3 && Forward(Forward(Forward(m3))) == m6
    ensures ForwardTimes(m, 8) == Forward(Forward(m6))
  {
    hide *;
    ThreeForward(m);
    ThreeForward(m3);
    TwoForward(m6);
    ForwardAgain(m, 3, 5);
    ForwardAgain(m3, 3, 2);
  }

  lemma TwoForward(m: Solo)
    ensures ForwardTimes(m, 2) == Forward(Forward(m))
  {
    assert ForwardTimes(Forward(Forward(m)), 0) == Forward(Forward(m));
    assert ForwardTimes(Forward(m), 1) == Forward(Forward(m));
  }

  lemma SaveForward(t: Task, job: string)
    requires t.job == job
    ensures Forward(Forward(Solo(Working(t, 6), [], [t], OneJob(job, FUSING, false, false))))
         == Solo(Acking(t), [], [t], OneJob(job, SUCCEEDED, true, false))
  {
    var jobs := OneJob(job, FUSING, false, false);
    var saved := OneJob(job, FUSING, true, false);
    assert jobs[job := jobs[job].(segments := Some(""))] == saved;
    assert saved[job := saved[job].(state := SUCCEEDED)] == OneJob(job, SUCCEEDED, true, false);
    assert Forward(Solo(Working(t, 6), [], [t], jobs)) == Solo(Working(t, 7), [], [t], saved);
  }

  /** A redelivery of a succeeded job: reserved, refused by the first report, taken off, pushed back. */
  lemma RedeliveryFails(q: string, job: string, attempts: nat, n: nat)
    requires attempts < 3 && n == 4
    ensures var jobs := OneJob(job, SUCCEEDED, true, false);
      ForwardTimes(Solo(Polling(0), [Tried(q, job, attempts)], [], jobs), n)
      == if attempts + 1 < 3 then Solo(Polling(0), [Tried(q, job, attempts + 1)], [], jobs)
         else Solo(SettingError(Tried(q, job, attempts)), [], [], jobs)
  {
    var t, jobs := Tried(q, job, attempts), OneJob(job, SUCCEEDED, true, false);
    var m0 := Solo(Polling(0), [t], [], jobs);
    assert [t][..0] == [] && [t] + [] == [t] && Without([t], t) == [];
    assert Forward(m0) == Solo(Working(t, 0), [], [t], jobs);
    assert Forward(Forward(m0)) == Solo(Giving(t), [], [t], jobs);
    assert Forward(Forward(Forward(m0))) == Solo(Returning(t), [], [], jobs);
    ThreeForward(m0);
    ForwardAgain(m0, 3, 1);
    var m3 := Solo(Returning(t), [], [], jobs);
    assert ForwardTimes(Forward(m3), 0) == Forward(m3);
    assert ForwardTimes(m3, 1) == Forward(m3);
  }

  lemma RecoveryBringsBack(q: string, job: string, n: nat)
    requires n == 4
    ensures var jobs := OneJob(job, SUCCEEDED, true, false);
      ForwardTimes(Solo(Recovering(0), [], [Tried(q, job, 0)], jobs), n)
      == Solo(Polling(0), [Tried(q, job, 0)], [], jobs)
  {
    var t, jobs := Tried(q, job, 0), OneJob(job, SUCCEEDED, true, false);
    var m0 := Solo(Recovering(0), [], [t], jobs);
    var m3 := Solo(Recovering(1), [t], [], jobs);
    assert [t][..0] == [] && [t] + [] == [t];
    assert Forward(m0) == Solo(Recovered(0, t), [], [], jobs);
    assert Forward(Forward(m0)) == Solo(Recovering(0), [t], [], jobs);
    assert Forward(Forward(Forward(m0))) == m3;
    assert Forward(m3) == Solo(Polling(0), [t], [], jobs);
    hide *;
    ThreeForward(m0);
    ForwardAgain(m0, 3, 1);
    ForwardOnce(m3);
  }

  lemma ForwardOnce(m: Solo)
    ensures ForwardTimes(m, 1) == Forward(m)
  {
    hide Forward;
    assert ForwardTimes(Forward(m), 0) == Forward(m);
  }

  lemma ErrorForward(q: string, job: string)
    ensures Forward(Solo(SettingError(Tried(q, job, 2)), [], [], OneJob(job, SUCCEEDED, true, false)))
         == Solo(SettingFailed(Tried(q, job, 2)), [], [], OneJob(job, SUCCEEDED, true, true))
  {
    var jobs := OneJob(job, SUCCEEDED, true, false);
    assert jobs[job := jobs[job].(error := true)] == OneJob(job, SUCCEEDED, true, true);
  }

  /** Recovery brings the task back, and three redeliveries use up its attempts. */
  lemma RecoveryEndsInError(q: string, job: string, n: nat)
    requires n == 17
    ensures ForwardTimes(Solo(Recovering(0), [], [Tried(q, job, 0)], OneJob(job, SUCCEEDED, true, false)), n)
         == Solo(SettingFailed(Tried(q, job, 2)), [], [], OneJob(job, SUCCEEDED, true, true))
  {
    hide *;
    var jobs := OneJob(job, SUCCEEDED, true, false);
    RecoveryBringsBack(q, job, 4);
    RedeliveryFails(q, job, 0, 4);
    RedeliveryFails(q, job, 1, 4);
    RedeliveryFails(q, job, 2, 4);
    ErrorForward(q, job);
    ForwardAgain(Solo(Recovering(0), [], [Tried(q, job, 0)], jobs), 4, 13);
    ForwardAgain(Solo(Polling(0), [Tried(q, job, 0)], [], jobs), 4, 9);
    ForwardAgain(Solo(Polling(0), [Tried(q, job, 1)], [], jobs), 4, 5);
    ForwardAgain(Solo(Polling(0), [Tried(q, job, 2)], [], jobs), 4, 1);
    ForwardOnce(Solo(SettingError(Tried(q, job, 2)), [], [], jobs));
  }

  /** Submit, process up to the acknowledgement, crash, restart, recover, fail three times. */
  function ErrorRun(c: string, q: string, job: string): seq<Step> {
    [CreateJob(job), Enqueue(Tried(q, job, 0), false), Start(c)] + Advances(c, 11)
    + [Crash(c), Start(c)] + Advances(c, 17)
  }

  lemma SubmittedShows(c: string, q: string, job: string)
    ensures Shows(Reached([q], [CreateJob(job), Enqueue(Tried(q, job, 0), false), Start(c)]), c, q,
                  Solo(Recovering(0), [Tried(q, job, 0)], [], OneJob(job, QUEUED, false, false)))
  {
    var t := Tried(q, job, 0);
    InitialInv([q]);
    Submitted(c, q, job);
    hide *;
    ThreeSteps(Initial([q]), CreateJob(job), Enqueue(t, false), Start(c));
    ReachedIs([q], [CreateJob(job), Enqueue(t, false), Start(c)]);
    QueueInvOf(Reached([q], [CreateJob(job), Enqueue(t, false), Start(c)]));
    InvShape(Reached([q], [CreateJob(job), Enqueue(t, false), Start(c)]));
    MakeShows(Reached([q], [CreateJob(job), Enqueue(t, false), Start(c)]), c, q,
              Solo(Recovering(0), [t], [], OneJob(job, QUEUED, false, false)));
  }

  lemma ReachedIs(queues: seq<string>, steps: seq<Step>)
    requires queues != [] && Inv(Initial(queues))
    ensures Reached(queues, steps) == Execute(Initial(queues), steps)
  {
    hide Inv, Execute, Initial;
  }

  lemma QueueInvOf(w: World)
    requires Inv(w)
    ensures QueueInv(w)
  {
    hide QueueInv, EffectInv;
  }

  lemma MakeShows(w: World, c: string, q: string, m: Solo)
    requires Inv(w) && Shape(w) && Sees(w, c, q, m)
    ensures Shows(w, c, q, m)
  {
    hide Inv, Shape, Sees;
  }

  lemma Submitted(c: string, q: string, job: string)
    ensures var w0, t := Initial([q]), Tried(q, job, 0);
      Shape(w0)
      && var w1 := Apply(w0, CreateJob(job));
      Shape(w1)
      && var w2 := Apply(w1, Enqueue(t, false));
      Shape(w2)
      && Sees(Apply(w2, Start(c)), c, q, Solo(Recovering(0), [t], [], OneJob(job, QUEUED, false, false)))
  {
    var w0, t := Initial([q]), Tried(q, job, 0);
    assert [t] + [] == [t];
    assert Apply(w0, CreateJob(job)) == w0.(jobs := OneJob(job, QUEUED, false, false));
  }

  lemma ThreeSteps(w: World, a: Step, b: Step, c: Step)
    requires Inv(w)
    ensures Shape(w) && Inv(Apply(w, a)) && Shape(Apply(w, a))
      && Inv(Apply(Apply(w, a), b)) && Shape(Apply(Apply(w, a), b))
    ensures Inv(Apply(Apply(Apply(w, a), b), c))
    ensures Execute(w, [a, b, c]) == Apply(Apply(Apply(w, a), b), c)
  {
    hide *;
    QueueInvOf(w);
    InvShape(w);
    StepKeepsInv(w, a);
    ExecuteOne(w, a);
    ExecuteTwo(Apply(w, a), b, c);
    assert [a, b, c] == [a] + [b, c];
    ExecuteMore(w, [a], [b, c]);
  }

  lemma ExecuteTwo(w: World, a: Step, b: Step)
    requires Inv(w)
    ensures Shape(w) && Inv(Apply(w, a)) && Shape(Apply(w, a)) && Inv(Apply(Apply(w, a), b))
    ensures Execute(w, [a, b]) == Apply(Apply(w, a), b)
  {
    hide *;
    QueueInvOf(w);
    InvShape(w);
    TwoSteps(w, a, b);
    StepKeepsInv(Apply(w, a), b);
  }

  lemma RestartShows(w: World, c: string, q: string, m: Solo)
    requires Shows(w, c, q, m) && m.point.Acking?
    ensures Shows(Execute(w, [Crash(c), Start(c)]), c, q, m.(point := Recovering(0)))
  {
    ShowsInv(w, c, q, m);
    hide *;
    TwoSteps(w, Crash(c), Start(c));
    StepKeepsInv(Apply(w, Crash(c)), Start(c));
    QueueInvOf(Apply(Apply(w, Crash(c)), Start(c)));
    InvShape(Apply(Apply(w, Crash(c)), Start(c)));
    RestartSees(w, c, q, m);
    MakeShows(Apply(Apply(w, Crash(c)), Start(c)), c, q, m.(point := Recovering(0)));
  }

  lemma RestartSees(w: World, c: string, q: string, m: Solo)
    requires Shows(w, c, q, m) && m.point.Acking? && Shape(Apply(w, Crash(c)))
    ensures Sees(Apply(Apply(w, Crash(c)), Start(c)), c, q, m.(point := Recovering(0)))
  {
    hide Inv;
  }

  /** A job that has succeeded can carry an error code: its worker dies before the acknowledgement,
  and every redelivery is refused by the finished job until the attempts run out. */
  lemma SucceededJobGetsError(c: string, q: string, job: string)
    ensures var w := Reached([q], ErrorRun(c, q, job));
      JobFinished(w.jobs, job) && HasError(w.jobs, job)
  {
    InitialInv([q]);
    ErrorRunShows(c, q, job);
    hide Inv, Shape, Reached;
  }

  lemma ErrorRunShows(c: string, q: string, job: string)
    requires Inv(Initial([q]))
    ensures Shows(Reached([q], ErrorRun(c, q, job)), c, q,
                  Solo(SettingFailed(Tried(q, job, 2)), [], [], OneJob(job, SUCCEEDED, true, true)))
  {
    hide *;
    SubmittedShows(c, q, job);
    PipelineSucceeds(q, job, 11);
    RecoveryEndsInError(q, job, 17);
    OwnTasks(q, job);
    ReachedIs([q], [CreateJob(job), Enqueue(Tried(q, job, 0), false), Start(c)]);
    ErrorRunIs(c, q, job);
    var w3 := Execute(Initial([q]), [CreateJob(job), Enqueue(Tried(q, job, 0), false), Start(c)]);
    var start := Solo(Recovering(0), [Tried(q, job, 0)], [], OneJob(job, QUEUED, false, false));
    var acking := Solo(Acking(Tried(q, job, 0)), [], [Tried(q, job, 0)], OneJob(job, SUCCEEDED, true, false));
    AdvancesShow(w3, c, q, start, 11);
    var w14 := Execute(w3, Advances(c, 11));
    RestartShows(w14, c, q, acking);
    var w16 := Execute(w14, [Crash(c), Start(c)]);
    AdvancesShow(w16, c, q, acking.(point := Recovering(0)), 17);
  }

  lemma OwnTasks(q: string, job: string)
    ensures OwnTask(Solo(Recovering(0), [Tried(q, job, 0)], [], OneJob(job, QUEUED, false, false)), q)
    ensures OwnTask(Solo(Recovering(0), [], [Tried(q, job, 0)], OneJob(job, SUCCEEDED, true, false)), q)
  {
  }

  lemma ErrorRunIs(c: string, q: string, job: string)
    requires Inv(Initial([q]))
    ensures var first := [CreateJob(job), Enqueue(Tried(q, job, 0), false), Start(c)];
      Reached([q], ErrorRun(c, q, job))
      == Execute(Execute(Execute(Execute(Initial([q]), first), Advances(c, 11)), [Crash(c), Start(c)]), Advances(c, 17))
  {
    var first := [CreateJob(job), Enqueue(Tried(q, job, 0), false), Start(c)];
    assert ErrorRun(c, q, job) == first + Advances(c, 11) + [Crash(c), Start(c)] + Advances(c, 17);
    hide *;
    ReachedIs([q], ErrorRun(c, q, job));
    ExecuteMore(Initial([q]), first, Advances(c, 11));
    ExecuteMore(Initial([q]), first + Advances(c, 11), [Crash(c), Start(c)]);
    ExecuteMore(Initial([q]), first + Advances(c, 11) + [Crash(c), Start(c)], Advances(c, 17));
  }
}
