/** What a job ends with: whose transcript, and which final state, over every run of the workers. */
module JobOutcomes {
  import opened Delivery
  import opened DeliverySafety
  import opened Jobs
  import opened Options
  import opened TaskQueue

  /** A worker on a task of this job takes this step without failing. */
  predicate WorksAt(w: World, step: Step, job: string, stage: nat) {
    && step.Advance? && !step.choice.raises
    && var p := PointOf(w, step.consumer);
       p.Working? && p.task.job == job && p.stage == stage
  }

  predicate Over(s: JobState) {
    s == SUCCEEDED || s == DEGRADED_SUCCEEDED || s == FAILED || s == CANCELLED
  }

  function FinalState(choice: Choice): JobState {
    if choice.degraded then DEGRADED_SUCCEEDED else SUCCEEDED
  }

  /** The state the step asks for, if it asks for one. */
  function Asked(w: World, step: Step, job: string): Option<JobState> {
    match step
    case Cancel(j) => if j == job then Some(CANCELLED) else None
    case Enqueue(t, full) =>
      if t.job == job && full && t.id !in w.where && t.attempts == 0 && !HasTask(w.jobOf, job) then Some(CANCELLED)
      else None
    case Advance(c, choice) =>
      (match PointOf(w, c)
       case Working(t, stage) =>
         if t.job != job || choice.raises then None
         else if stage == 0 then Some(PREPROCESSING)
         else if stage == 1 then Some(DIARIZING)
         else if stage == 2 then Some(TRANSCRIBING)
         else if stage == 3 then (if choice.hasOverlap then Some(SEPARATING) else None)
         else if stage == 4 then Some(LINKING)
         else if stage == 5 then Some(FUSING)
         else if stage == 6 then None
         else Some(FinalState(choice))
       case SettingFailed(t) => if t.job == job then Some(FAILED) else None
       case _ => None)
    case _ => None
  }

  /** What a consumer's step does to the jobs. */
  lemma ConsumedJobs(w: World, c: string, choice: Choice)
    requires Shape(w)
    ensures Consume(w, c, choice).jobs ==
      match PointOf(w, c)
      case Working(t, stage) => Handle(w.jobs, t, stage, choice).0
      case SettingError(t) => MarkError(w.jobs, t.job)
      case SettingFailed(t) => Report(w.jobs, t.job, FAILED)
      case _ => w.jobs
  {
    hide LPush, LRem, RPop, RPopLPush, Rightmost, RetryKey, Again, At, Handle, MarkError, Report;
  }

  /** One step moves a job that is not over to the state asked for, and no other. */
  lemma StateAfterStep(w: World, step: Step, job: string)
    requires Shape(w) && job in w.jobs
    ensures job in Apply(w, step).jobs
    ensures Apply(w, step).jobs[job].state
         == if Asked(w, step, job).Some? && !Over(w.jobs[job].state) then Asked(w, step, job).value
            else w.jobs[job].state
  {
    hide LPush, Consume, Handle;
    if step.Advance? {
      ConsumedJobs(w, step.consumer, step.choice);
      if PointOf(w, step.consumer).Working? {
        HandledState(w.jobs, PointOf(w, step.consumer).task, PointOf(w, step.consumer).stage, step.choice, job);
      }
    }
  }

  lemma HandledState(jobs: Runs, t: Task, stage: nat, choice: Choice, job: string)
    requires job in jobs
    ensures job in Handle(jobs, t, stage, choice).0
    ensures t.job != job ==> Handle(jobs, t, stage, choice).0[job] == jobs[job]
    ensures t.job == job ==>
      Handle(jobs, t, stage, choice).0[job].state
      == if choice.raises || stage == 6 || (stage == 3 && !choice.hasOverlap) || Over(jobs[job].state)
         then jobs[job].state
         else if stage == 0 then PREPROCESSING else if stage == 1 then DIARIZING else if stage == 2 then TRANSCRIBING
         else if stage == 3 then SEPARATING else if stage == 4 then LINKING else if stage == 5 then FUSING
         else FinalState(choice)
  {
  }

  /** A worker goes on to its next step; where it fails or the job is over it gives the task back. */
  lemma WorkerGoesOn(w: World, c: string, choice: Choice, t: Task, stage: nat)
    requires Shape(w) && PointOf(w, c) == Working(t, stage) && t.job in w.jobs
    ensures var p := PointOf(Apply(w, Advance(c, choice)), c);
      if choice.raises then p == Giving(t)
      else if stage == 3 && !choice.hasOverlap then p == Working(t, 4)
      else if stage == 6 then p == Working(t, 7)
      else if Over(w.jobs[t.job].state)
              && (stage < 6 || w.jobs[t.job].state != FinalState(choice)) then p == Giving(t)
      else p == if stage < 6 then Working(t, stage + 1) else Acking(t)
  {
  }

  // ---- Segments ---------------------------------------------------------------------------

  lemma SegmentsAfterStep(w: World, step: Step, job: string)
    requires Shape(w) && job in w.jobs
    ensures job in Apply(w, step).jobs
    ensures Apply(w, step).jobs[job].segments
         == if WorksAt(w, step, job, 6) then Some(step.choice.segments) else w.jobs[job].segments
  {
    hide LPush, Consume, Handle;
    if step.Advance? {
      ConsumedJobs(w, step.consumer, step.choice);
      if PointOf(w, step.consumer).Working? {
        HandledSegments(w.jobs, PointOf(w, step.consumer).task, PointOf(w, step.consumer).stage, step.choice, job);
      }
    }
  }

  lemma HandledSegments(jobs: Runs, t: Task, stage: nat, choice: Choice, job: string)
    requires job in jobs
    ensures job in Handle(jobs, t, stage, choice).0
    ensures Handle(jobs, t, stage, choice).0[job].segments
         == if t.job == job && stage == 6 && !choice.raises then Some(choice.segments) else jobs[job].segments
  {
  }

  lemma ExecuteSnoc(w: World, steps: seq<Step>)
    requires Inv(w) && steps != []
    ensures Shape(Execute(w, steps[..|steps| - 1]))
    ensures Execute(w, steps) == Apply(Execute(w, steps[..|steps| - 1]), steps[|steps| - 1])
  {
    InvShape(Execute(w, steps[..|steps| - 1]));
    hide Inv, Apply;
  }

  predicate SavedAt(w: World, steps: seq<Step>, i: nat, job: string)
    requires Inv(w) && i < |steps|
  {
    WorksAt(Execute(w, steps[..i]), steps[i], job, 6)
  }

  /** The `k`-th step is the last one of the run that saves a transcript of the job. */
  ghost predicate LastSaved(w: World, steps: seq<Step>, k: nat, job: string)
    requires Inv(w)
  {
    k < |steps| && SavedAt(w, steps, k, job) && forall i :: k < i < |steps| ==> !SavedAt(w, steps, i, job)
  }

  ghost predicate NeverSaved(w: World, steps: seq<Step>, job: string)
    requires Inv(w)
  {
    forall i :: 0 <= i < |steps| ==> !SavedAt(w, steps, i, job)
  }

  lemma SavedPrefix(w: World, steps: seq<Step>, i: nat, job: string)
    requires Inv(w) && i < |steps| - 1
    ensures SavedAt(w, steps[..|steps| - 1], i, job) <==> SavedAt(w, steps, i, job)
  {
    hide Inv, Execute, WorksAt;
    assert steps[..|steps| - 1][..i] == steps[..i];
  }

  lemma LastSavedBefore(w: World, steps: seq<Step>, job: string)
    requires Inv(w) && steps != [] && !SavedAt(w, steps, |steps| - 1, job)
    ensures forall k: nat :: LastSaved(w, steps, k, job) ==>
      k < |steps| - 1 && LastSaved(w, steps[..|steps| - 1], k, job)
    ensures NeverSaved(w, steps, job) ==> NeverSaved(w, steps[..|steps| - 1], job)
  {
    hide Inv, SavedAt;
    var init := steps[..|steps| - 1];
    forall i: nat | i < |init|
      ensures SavedAt(w, init, i, job) <==> SavedAt(w, steps, i, job)
    {
      SavedPrefix(w, steps, i, job);
    }
  }

  /** After every run a job has the transcript its workers saved last, or the one it had. */
  lemma {:induction false} SegmentsAfterRun(w: World, steps: seq<Step>, job: string)
    requires Inv(w) && job in w.jobs
    ensures job in Execute(w, steps).jobs
    ensures forall k: nat :: LastSaved(w, steps, k, job) ==>
      steps[k].Advance? && Execute(w, steps).jobs[job].segments == Some(steps[k].choice.segments)
    ensures NeverSaved(w, steps, job) ==> Execute(w, steps).jobs[job].segments == w.jobs[job].segments
    decreases |steps|
  {
    hide *;
    if steps == [] {
      ExecuteNone(w);
    } else {
      var init, last := steps[..|steps| - 1], steps[|steps| - 1];
      SegmentsAfterRun(w, init, job);
      ExecuteSnoc(w, steps);
      SegmentsAfterStep(Execute(w, init), last, job);
      if SavedAt(w, steps, |steps| - 1, job) {
        SavedLast(w, steps, job);
      } else {
        SavedAtIs(w, steps, |steps| - 1, job);
        LastSavedBefore(w, steps, job);
      }
    }
    assert steps == [] ==> forall k: nat :: !LastSaved(w, steps, k, job) by { NoLastSaved(w, job); }
  }

  lemma NoLastSaved(w: World, job: string)
    requires Inv(w)
    ensures forall k: nat :: !LastSaved(w, [], k, job)
  {
  }

  lemma ExecuteNone(w: World)
    requires Inv(w)
    ensures Execute(w, []) == w
  {
    hide Inv;
  }

  lemma SavedAtIs(w: World, steps: seq<Step>, i: nat, job: string)
    requires Inv(w) && i < |steps|
    ensures SavedAt(w, steps, i, job) <==> WorksAt(Execute(w, steps[..i]), steps[i], job, 6)
    ensures SavedAt(w, steps, i, job) ==> steps[i].Advance?
  {
    hide Inv, Execute;
  }

  lemma SavedLast(w: World, steps: seq<Step>, job: string)
    requires Inv(w) && steps != [] && SavedAt(w, steps, |steps| - 1, job)
    ensures forall k: nat :: LastSaved(w, steps, k, job) ==> k == |steps| - 1
    ensures WorksAt(Execute(w, steps[..|steps| - 1]), steps[|steps| - 1], job, 6) && steps[|steps| - 1].Advance?
    ensures !NeverSaved(w, steps, job)
  {
    SavedAtIs(w, steps, |steps| - 1, job);
    hide Inv, SavedAt, WorksAt, Execute;
  }

  // ---- The final state --------------------------------------------------------------------

  /** A worker reports the end of a job that is not over. */
  predicate Finishes(w: World, step: Step, job: string) {
    && step.Advance? && !step.choice.raises && job in w.jobs && !Over(w.jobs[job].state)
    && var p := PointOf(w, step.consumer);
       p.Working? && p.task.job == job && p.stage >= 7
  }

  predicate FinishesAt(w: World, steps: seq<Step>, i: nat, job: string)
    requires Inv(w) && i < |steps|
  {
    Finishes(Execute(w, steps[..i]), steps[i], job)
  }

  lemma FinishAfterStep(w: World, step: Step, job: string)
    requires Shape(w) && job in w.jobs
    ensures job in Apply(w, step).jobs
    ensures JobFinished(Apply(w, step).jobs, job) <==> JobFinished(w.jobs, job) || Finishes(w, step, job)
    ensures Finishes(w, step, job) ==> Apply(w, step).jobs[job].state == FinalState(step.choice)
    ensures JobFinished(w.jobs, job) ==> Apply(w, step).jobs[job].state == w.jobs[job].state
  {
    StateAfterStep(w, step, job);
    hide Apply;
  }

  lemma FinishesPrefix(w: World, steps: seq<Step>, i: nat, job: string)
    requires Inv(w) && i < |steps| - 1
    ensures FinishesAt(w, steps[..|steps| - 1], i, job) <==> FinishesAt(w, steps, i, job)
  {
    hide Inv, Execute, Finishes;
    assert steps[..|steps| - 1][..i] == steps[..i];
  }

  ghost predicate FinishedInRun(w: World, steps: seq<Step>, job: string)
    requires Inv(w)
  {
    exists i :: 0 <= i < |steps| && FinishesAt(w, steps, i, job)
  }

  lemma FinishedMore(w: World, steps: seq<Step>, job: string)
    requires Inv(w) && steps != []
    ensures FinishedInRun(w, steps, job)
       <==> FinishedInRun(w, steps[..|steps| - 1], job) || FinishesAt(w, steps, |steps| - 1, job)
    ensures forall i :: 0 <= i < |steps| - 1 ==>
      (FinishesAt(w, steps[..|steps| - 1], i, job) <==> FinishesAt(w, steps, i, job))
  {
    hide Inv, FinishesAt;
    var init := steps[..|steps| - 1];
    forall i | 0 <= i < |init|
      ensures FinishesAt(w, init, i, job) <==> FinishesAt(w, steps, i, job)
    {
      FinishesPrefix(w, steps, i, job);
    }
  }

  /** A job is finished after a run exactly when it was or a worker reported its end; it is then in the
  state that worker reported, degraded or not, whatever happened later. */
  lemma {:induction false} FinishAfterRun(w: World, steps: seq<Step>, job: string)
    requires Inv(w) && job in w.jobs
    ensures job in Execute(w, steps).jobs
    ensures JobFinished(Execute(w, steps).jobs, job) <==> JobFinished(w.jobs, job) || FinishedInRun(w, steps, job)
    ensures JobFinished(w.jobs, job) ==> Execute(w, steps).jobs[job].state == w.jobs[job].state
    ensures forall i :: 0 <= i < |steps| && FinishesAt(w, steps, i, job) ==>
      steps[i].Advance? && Execute(w, steps).jobs[job].state == FinalState(steps[i].choice)
    decreases |steps|
  {
    hide *;
    if steps == [] {
      ExecuteNone(w);
      NothingFinished(w, job);
    } else {
      var init, last := steps[..|steps| - 1], steps[|steps| - 1];
      FinishAfterRun(w, init, job);
      ExecuteSnoc(w, steps);
      FinishAfterStep(Execute(w, init), last, job);
      FinishedMore(w, steps, job);
      FinishesAtIs(w, steps, |steps| - 1, job);
      FinishedAtPrefix(w, steps, job);
    }
  }

  lemma NothingFinished(w: World, job: string)
    requires Inv(w)
    ensures !FinishedInRun(w, [], job)
  {
  }

  lemma FinishesAtIs(w: World, steps: seq<Step>, i: nat, job: string)
    requires Inv(w) && i < |steps|
    ensures FinishesAt(w, steps, i, job) <==> Finishes(Execute(w, steps[..i]), steps[i], job)
    ensures FinishesAt(w, steps, i, job) ==> steps[i].Advance? && !JobFinished(Execute(w, steps[..i]).jobs, job)
  {
    hide Inv, Execute;
  }

  lemma FinishedAtPrefix(w: World, steps: seq<Step>, job: string)
    requires Inv(w) && steps != []
    ensures forall i :: 0 <= i < |steps| - 1 && FinishesAt(w, steps, i, job) ==>
      FinishesAt(w, steps[..|steps| - 1], i, job) && FinishedInRun(w, steps[..|steps| - 1], job)
  {
    FinishedMore(w, steps, job);
    hide Inv, FinishesAt;
  }

  /** The transcript of a finished job was saved before its end was reported. */
  lemma SavedBeforeFinish(w: World, steps: seq<Step>, k: nat, i: nat, job: string)
    requires Inv(w) && job in w.jobs && k < |steps| && i < |steps|
    requires SavedAt(w, steps, k, job) && FinishesAt(w, steps, i, job)
    ensures k < i
  {
    SavedAtIs(w, steps, k, job);
    FinishesAtIs(w, steps, i, job);
    var before := Execute(w, steps[..k]);
    assert !JobFinished(before.jobs, job) by {
      WorkingOnIt(before, steps[k], job);
    }
    BothAtOnce(before, steps[k], job);
    if i < k {
      hide *;
      FinishAfterRun(w, steps[..k], job);
      FinishedEarlier(w, steps, i, k, job);
    }
  }

  lemma WorkingOnIt(w: World, step: Step, job: string)
    requires Inv(w) && WorksAt(w, step, job, 6)
    ensures !JobFinished(w.jobs, job)
  {
    assert Effects(w.jobs, PointOf(w, step.consumer));
  }

  lemma BothAtOnce(w: World, step: Step, job: string)
    ensures !(WorksAt(w, step, job, 6) && Finishes(w, step, job))
  {
  }

  lemma FinishedEarlier(w: World, steps: seq<Step>, i: nat, k: nat, job: string)
    requires Inv(w) && i < k <= |steps| && FinishesAt(w, steps, i, job)
    ensures FinishedInRun(w, steps[..k], job)
  {
    hide Inv, Execute, Finishes;
    assert steps[..k][..i] == steps[..i];
    assert FinishesAt(w, steps[..k], i, job);
  }
}
