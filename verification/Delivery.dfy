/** The delivery protocol, one Redis or job-store command at a time.

Any number of consumers run the worker loop against shared lists and a shared job store; each may
crash between any two commands, and each consumer name has at most one live process.  `where`
records, beside the lists, where every task is: it is what the safety statements are about, and no
step reads it.
*/
module Delivery {
  import opened Jobs
  import opened Options
  import opened TaskQueue

  const MAX_ATTEMPTS := 3

  /** What a consumer is about to do. */
  datatype Point =
    | Down
    | Recovering(at: nat)                  // RPOP the processing list of queues[at]
    | Recovered(at: nat, task: Task)       // popped; not yet pushed back or requeued
    | Polling(at: nat)                     // RPOPLPUSH queues[at]; past the end: BRPOPLPUSH queues[0]
    | Working(task: Task, stage: nat)
    | Acking(task: Task)
    | Giving(task: Task)                   // retry: LREM
    | Returning(task: Task)                // retry: removed; not yet pushed
    | SettingError(task: Task)
    | SettingFailed(task: Task)

  datatype Place = InList(key: Key) | InHand(consumer: string) | Done | Lost

  datatype Run = Run(state: JobState, segments: Option<string>, error: bool)

  datatype World = World(
    queues: seq<string>,
    lists: Lists,
    points: map<string, Point>,
    jobs: Runs,
    where: map<string, Place>,
    jobOf: map<string, string>)

  /** What the environment decides inside one consumer step. */
  datatype Choice = Choice(withinLease: bool, raises: bool, hasOverlap: bool, degraded: bool, segments: string)

  datatype Step =
    | CreateJob(job: string)
    | Enqueue(task: Task, full: bool)
    | Cancel(job: string)
    | Start(consumer: string)
    | Stop(consumer: string)
    | Crash(consumer: string)
    | Advance(consumer: string, choice: Choice)

  function PointOf(w: World, c: string): Point {
    if c in w.points then w.points[c] else Down
  }

  function GoTo(w: World, c: string, p: Point): World {
    w.(points := w.points[c := p])
  }

  function Move(w: World, id: string, place: Place): World {
    w.(where := w.where[id := place])
  }

  predicate Gap(p: Point) {
    p.Recovered? || p.Returning?
  }

  // ---- The job store ----------------------------------------------------------------------

  type Runs = map<string, Run>

  predicate Finished(s: JobState) {
    s == SUCCEEDED || s == DEGRADED_SUCCEEDED
  }

  /** Stage reports in order; separation is reported only when there is overlap. */
  const STAGES: seq<JobState> := [PREPROCESSING, DIARIZING, TRANSCRIBING, SEPARATING, LINKING, FUSING]

  predicate CanReport(jobs: Runs, job: string, s: JobState) {
    job in jobs && CanBecome(jobs[job].state, s)
  }

  /** `update_state`; unchanged where it raises. */
  function Report(jobs: Runs, job: string, s: JobState): Runs {
    if CanReport(jobs, job, s) then jobs[job := jobs[job].(state := s)] else jobs
  }

  function SaveSegments(jobs: Runs, job: string, segments: string): Runs {
    if job in jobs then jobs[job := jobs[job].(segments := Some(segments))] else jobs
  }

  function MarkError(jobs: Runs, job: string): Runs {
    if job in jobs then jobs[job := jobs[job].(error := true)] else jobs
  }

  /** One step of `handle`: a stage report, the save, or the final state. */
  function Handle(jobs: Runs, t: Task, stage: nat, choice: Choice): (Runs, Point) {
    if choice.raises then (jobs, Giving(t))
    else if stage < 6 then
      if stage == 3 && !choice.hasOverlap then (jobs, Working(t, 4))
      else (Report(jobs, t.job, STAGES[stage]),
            if CanReport(jobs, t.job, STAGES[stage]) then Working(t, stage + 1) else Giving(t))
    else if stage == 6 then (SaveSegments(jobs, t.job, choice.segments), Working(t, 7))
    else
      var final := if choice.degraded then DEGRADED_SUCCEEDED else SUCCEEDED;
      (Report(jobs, t.job, final), if CanReport(jobs, t.job, final) then Acking(t) else Giving(t))
  }

  // ---- Consumer steps ---------------------------------------------------------------------

  function PopProcessing(w: World, c: string, at: nat): World {
    if at >= |w.queues| then GoTo(w, c, Polling(0))
    else
      var k := Processing(w.queues[at], c);
      match Rightmost(w.lists, k)
      case None => GoTo(w, c, Recovering(at + 1))
      case Some(t) => GoTo(Move(w.(lists := RPop(w.lists, k)), t.id, InHand(c)), c, Recovered(at, t))
  }

  function PushRecovered(w: World, c: string, at: nat, t: Task, withinLease: bool): World
    requires at < |w.queues|
  {
    var k := if withinLease then Processing(w.queues[at], c) else Queue(w.queues[at]);
    GoTo(Move(w.(lists := LPush(w.lists, k, t)), t.id, InList(k)), c, Recovering(if withinLease then at + 1 else at))
  }

  function Take(w: World, c: string, queue: string, otherwise: Point): World {
    match Rightmost(w.lists, Queue(queue))
    case None => GoTo(w, c, otherwise)
    case Some(t) =>
      var k := Processing(queue, c);
      GoTo(Move(w.(lists := RPopLPush(w.lists, Queue(queue), k)), t.id, InList(k)), c, Working(t, 0))
  }

  function Poll(w: World, c: string, at: nat): World
    requires w.queues != []
  {
    if at < |w.queues| then Take(w, c, w.queues[at], Polling(at + 1))
    else Take(w, c, w.queues[0], Polling(0))
  }

  function Remove(w: World, c: string, t: Task, place: Place, next: Point): World {
    GoTo(Move(w.(lists := LRem(w.lists, Processing(t.queue, c), t)), t.id, place), c, next)
  }

  function PushRetried(w: World, c: string, t: Task): World {
    var k := RetryKey(t, MAX_ATTEMPTS);
    GoTo(Move(w.(lists := LPush(w.lists, k, Again(t))), t.id, InList(k)), c,
         if k.Dead? then SettingError(t) else Polling(0))
  }

  function Consume(w: World, c: string, choice: Choice): World
    requires Shape(w)
  {
    match PointOf(w, c)
    case Down => w
    case Recovering(at) => PopProcessing(w, c, at)
    case Recovered(at, t) => PushRecovered(w, c, at, t, choice.withinLease)
    case Polling(at) => Poll(w, c, at)
    case Working(t, stage) =>
      var (jobs, next) := Handle(w.jobs, t, stage, choice);
      GoTo(w.(jobs := jobs), c, next)
    case Acking(t) => Remove(w, c, t, Done, Polling(0))
    case Giving(t) => Remove(w, c, t, InHand(c), Returning(t))
    case Returning(t) => PushRetried(w, c, t)
    case SettingError(t) => GoTo(w.(jobs := MarkError(w.jobs, t.job)), c, SettingFailed(t))
    case SettingFailed(t) => GoTo(w.(jobs := Report(w.jobs, t.job, FAILED)), c, Polling(0))
  }

  function NewJob(w: World, job: string): World {
    if job in w.jobs then w else w.(jobs := w.jobs[job := Run(QUEUED, None, false)])
  }

  predicate HasTask(jobOf: map<string, string>, job: string) {
    exists id :: id in jobOf && jobOf[id] == job
  }

  /** The one task of a job; a full queue cancels the job instead.  A submitter that dies before this
  leaves a queued job without a task. */
  function EnqueueTask(w: World, t: Task, full: bool): World {
    if t.job !in w.jobs || HasTask(w.jobOf, t.job) || t.id in w.where || t.attempts != 0 then w
    else if full then w.(jobs := Report(w.jobs, t.job, CANCELLED))
    else Move(w.(lists := LPush(w.lists, Queue(t.queue), t), jobOf := w.jobOf[t.id := t.job]),
             t.id, InList(Queue(t.queue)))
  }

  function Apply(w: World, step: Step): World
    requires Shape(w)
  {
    match step
    case CreateJob(job) => NewJob(w, job)
    case Enqueue(t, full) => EnqueueTask(w, t, full)
    case Cancel(job) => w.(jobs := Report(w.jobs, job, CANCELLED))
    case Start(c) => if PointOf(w, c).Down? then GoTo(w, c, Recovering(0)) else w
    case Stop(c) => if PointOf(w, c).Polling? then GoTo(w, c, Down) else w
    case Crash(c) =>
      var p := PointOf(w, c);
      GoTo(if Gap(p) then Move(w, p.task.id, Lost) else w, c, Down)
    case Advance(c, choice) => Consume(w, c, choice)
  }

  /** Enough to make every step well defined. */
  ghost predicate Shape(w: World) {
    && w.queues != []
    && forall c :: c in w.points && w.points[c].Recovered? ==> w.points[c].at < |w.queues|
  }

  // ---- The invariant ----------------------------------------------------------------------

  ghost predicate NoRepeats(list: seq<Task>) {
    forall i, j :: 0 <= i < j < |list| ==> list[i].id != list[j].id
  }

  /** Lists and record agree: a task is in the list it is recorded in, once, and nowhere else. */
  ghost predicate Placed(lists: Lists, where: map<string, Place>) {
    && (forall k, t :: t in At(lists, k) ==> t.id in where && where[t.id] == InList(k))
    && (forall k :: NoRepeats(At(lists, k)))
    && (forall id, k :: id in where && where[id] == InList(k) ==> HasId(At(lists, k), id))
  }

  ghost predicate HasId(list: seq<Task>, id: string) {
    exists t :: t in list && t.id == id
  }

  predicate TaskFits(k: Key, t: Task, jobOf: map<string, string>) {
    && t.queue == k.queue
    && (if k.Dead? then t.attempts == MAX_ATTEMPTS else t.attempts < MAX_ATTEMPTS)
    && t.id in jobOf && jobOf[t.id] == t.job
  }

  ghost predicate Typed(lists: Lists, jobOf: map<string, string>) {
    forall k, t :: t in At(lists, k) ==> TaskFits(k, t, jobOf)
  }

  ghost predicate OneTaskPerJob(w: World) {
    && w.where.Keys == w.jobOf.Keys
    && (forall id :: id in w.jobOf ==> w.jobOf[id] in w.jobs)
    && (forall a, b :: a in w.jobOf && b in w.jobOf && w.jobOf[a] == w.jobOf[b] ==> a == b)
  }

  /** The consumer's position matches the lists and the record. */
  ghost predicate Fits(w: World, c: string) {
    var p := PointOf(w, c);
    && (p.Working? || p.Acking? || p.Giving? ==> p.task in At(w.lists, Processing(p.task.queue, c)))
    && (Gap(p) ==>
          && p.task.id in w.where && w.where[p.task.id] == InHand(c)
          && TaskFits(Queue(p.task.queue), p.task, w.jobOf))
    && (p.Recovered? ==> p.at < |w.queues| && p.task.queue == w.queues[p.at])
  }

  ghost predicate HandsHold(w: World) {
    forall id, c :: id in w.where && w.where[id] == InHand(c) ==> Gap(PointOf(w, c)) && PointOf(w, c).task.id == id
  }

  predicate JobFinished(jobs: Runs, job: string) {
    job in jobs && Finished(jobs[job].state)
  }

  /** No consumer is past the first report of a finished job, and what is acknowledged is finished. */
  ghost predicate Effects(jobs: Runs, p: Point) {
    && (p.Working? && p.stage >= 1 ==> !JobFinished(jobs, p.task.job))
    && (p.Working? && p.stage >= 7 ==> p.task.job in jobs && jobs[p.task.job].segments.Some?)
    && (p.Acking? ==> JobFinished(jobs, p.task.job))
  }

  ghost predicate FinishedSaved(w: World) {
    && (forall j :: JobFinished(w.jobs, j) ==> w.jobs[j].segments.Some?)
    && (forall id :: id in w.where && w.where[id] == Done ==> id in w.jobOf && JobFinished(w.jobs, w.jobOf[id]))
  }

  ghost predicate QueueInv(w: World) {
    && w.queues != []
    && Placed(w.lists, w.where) && Typed(w.lists, w.jobOf) && OneTaskPerJob(w)
    && (forall c :: Fits(w, c)) && HandsHold(w)
  }

  ghost predicate EffectInv(w: World) {
    && (forall c :: Effects(w.jobs, PointOf(w, c))) && FinishedSaved(w)
  }

  ghost predicate Inv(w: World) {
    QueueInv(w) && EffectInv(w)
  }

  lemma InvShape(w: World)
    requires QueueInv(w)
    ensures Shape(w)
  {
    assert forall c :: c in w.points ==> Fits(w, c);
  }

  // ---- One command on the lists -----------------------------------------------------------

  /** `t` left list `k`; every other membership is as before. */
  ghost predicate Removed(lists: Lists, after: Lists, k: Key, t: Task) {
    && (forall k', t' :: t' in At(after, k') <==> t' in At(lists, k') && !(k' == k && t'.id == t.id))
    && (forall k' :: NoRepeats(At(after, k')))
  }

  /** `t` joined list `k`; every other membership is as before. */
  ghost predicate Added(lists: Lists, after: Lists, k: Key, t: Task) {
    && (forall k', t' :: t' in At(after, k') <==> t' in At(lists, k') || (k' == k && t' == t))
    && (forall k' :: NoRepeats(At(after, k')))
  }

  lemma PushAdds(lists: Lists, k: Key, t: Task)
    requires forall k' :: NoRepeats(At(lists, k'))
    requires forall t' :: t' in At(lists, k) ==> t'.id != t.id
    ensures Added(lists, LPush(lists, k, t), k, t)
  {
    var after := LPush(lists, k, t);
    assert NoRepeats(At(after, k)) by {
      assert forall i :: 0 <= i < |At(lists, k)| ==> At(lists, k)[i] in At(lists, k);
    }
    assert forall k' :: k' != k ==> At(after, k') == At(lists, k');
  }

  lemma PopRemoves(lists: Lists, k: Key)
    requires At(lists, k) != [] && forall k' :: NoRepeats(At(lists, k'))
    ensures Rightmost(lists, k).Some? && Rightmost(lists, k).value in At(lists, k)
    ensures Removed(lists, RPop(lists, k), k, Rightmost(lists, k).value)
  {
    var list, after := At(lists, k), RPop(lists, k);
    assert NoRepeats(list);
    InitFacts(list[..|list| - 1], list[|list| - 1]);
    assert list == list[..|list| - 1] + [list[|list| - 1]];
    assert forall k' :: k' != k ==> At(after, k') == At(lists, k');
  }

  lemma InitFacts(init: seq<Task>, t: Task)
    requires NoRepeats(init + [t])
    ensures NoRepeats(init)
    ensures forall t' :: t' in init <==> t' in init + [t] && t'.id != t.id
  {
    var list := init + [t];
    assert list[|init|] == t;
    assert forall i :: 0 <= i < |init| ==> list[i] == init[i];
  }

  lemma ConsFacts(t: Task, rest: seq<Task>)
    ensures NoRepeats([t] + rest) <==> NoRepeats(rest) && forall t' :: t' in rest ==> t'.id != t.id
  {
    var list := [t] + rest;
    assert forall i :: 0 <= i < |rest| ==> list[i + 1] == rest[i];
    if NoRepeats(list) {
      forall t' | t' in rest
        ensures t'.id != t.id
      {
        var i :| 0 <= i < |rest| && rest[i] == t';
        assert list[0] == t && list[i + 1] == t';
      }
    }
  }

  lemma {:induction false} WithoutFacts(list: seq<Task>, t: Task)
    requires NoRepeats(list) && t in list
    ensures NoRepeats(Without(list, t))
    ensures forall t' :: t' in Without(list, t) <==> t' in list && t'.id != t.id
  {
    var head, rest := list[0], list[1..];
    assert list == [head] + rest;
    ConsFacts(head, rest);
    if head != t {
      WithoutFacts(rest, t);
      ConsFacts(head, Without(rest, t));
    }
  }

  lemma RemRemoves(lists: Lists, k: Key, t: Task)
    requires t in At(lists, k) && forall k' :: NoRepeats(At(lists, k'))
    ensures Removed(lists, LRem(lists, k, t), k, t)
  {
    var after := LRem(lists, k, t);
    assert NoRepeats(At(lists, k));
    WithoutFacts(At(lists, k), t);
    assert forall k' :: k' != k ==> At(after, k') == At(lists, k');
  }

  lemma RemovedPlaced(lists: Lists, after: Lists, where: map<string, Place>, k: Key, t: Task, place: Place)
    requires Placed(lists, where) && t in At(lists, k) && Removed(lists, after, k, t) && !place.InList?
    ensures Placed(after, where[t.id := place])
  {
    var where' := where[t.id := place];
    hide NoRepeats, At;
    forall id, k' | id in where' && where'[id] == InList(k')
      ensures HasId(At(after, k'), id)
    {
      var t' :| t' in At(lists, k') && t'.id == id;
      assert t' in At(after, k');
    }
  }

  lemma AddedPlaced(lists: Lists, after: Lists, where: map<string, Place>, k: Key, t: Task)
    requires Placed(lists, where) && Added(lists, after, k, t)
    requires t.id in where ==> !where[t.id].InList?
    ensures Placed(after, where[t.id := InList(k)])
  {
    var where' := where[t.id := InList(k)];
    hide NoRepeats, At;
    assert t in At(after, k);
    forall id, k' | id in where' && where'[id] == InList(k')
      ensures HasId(At(after, k'), id)
    {
      if id != t.id {
        var t' :| t' in At(lists, k') && t'.id == id;
        assert t' in At(after, k');
      }
    }
  }

  // ---- Steps of one consumer --------------------------------------------------------------

  /** Nothing that concerns another consumer has changed. */
  ghost predicate Local(w: World, w': World, c: string) {
    && w'.queues == w.queues
    && (forall d :: d != c ==> PointOf(w', d) == PointOf(w, d))
    && (forall d, q, t :: d != c && t in At(w.lists, Processing(q, d)) ==> t in At(w'.lists, Processing(q, d)))
    && (forall d, id :: d != c ==>
          ((id in w.where && w.where[id] == InHand(d)) <==> (id in w'.where && w'.where[id] == InHand(d))))
    && (forall id :: id in w.jobOf ==> id in w'.jobOf && w'.jobOf[id] == w.jobOf[id])
  }

  ghost predicate HandOf(w: World, c: string) {
    forall id :: id in w.where && w.where[id] == InHand(c) ==> Gap(PointOf(w, c)) && PointOf(w, c).task.id == id
  }

  lemma LocalKeepsQueueInv(w: World, w': World, c: string)
    requires QueueInv(w) && Local(w, w', c)
    requires Placed(w'.lists, w'.where) && Typed(w'.lists, w'.jobOf) && OneTaskPerJob(w')
    requires Fits(w', c) && HandOf(w', c)
    ensures QueueInv(w')
  {
    forall d
      ensures Fits(w', d)
    {
      assert Fits(w, d);
    }
    forall id, d | id in w'.where && w'.where[id] == InHand(d)
      ensures Gap(PointOf(w', d)) && PointOf(w', d).task.id == id
    {
      if d != c {
        assert w.where[id] == InHand(d);
      }
    }
  }

  /** A position that says nothing about the lists. */
  predicate Free(p: Point) {
    !Gap(p) && !p.Working? && !p.Acking? && !p.Giving?
  }

  lemma TypedAfterRemove(lists: Lists, after: Lists, k: Key, t: Task, jobOf: map<string, string>)
    requires Typed(lists, jobOf) && Removed(lists, after, k, t)
    ensures Typed(after, jobOf)
  {
  }

  lemma TypedAfterAdd(lists: Lists, after: Lists, k: Key, t: Task, jobOf: map<string, string>)
    requires Typed(lists, jobOf) && Added(lists, after, k, t) && TaskFits(k, t, jobOf)
    ensures Typed(after, jobOf)
  {
  }

  /** A command that takes a task off the consumer's own processing list. */
  lemma RemoveKeepsQueueInv(w: World, c: string, t: Task, after: Lists, place: Place, next: Point)
    requires QueueInv(w) && !Gap(PointOf(w, c))
    requires t in At(w.lists, Processing(t.queue, c)) && Removed(w.lists, after, Processing(t.queue, c), t)
    requires place == InHand(c) || place == Done
    requires place == InHand(c) ==> Gap(next) && next.task == t
    requires next.Recovered? ==> next.at < |w.queues| && t.queue == w.queues[next.at]
    requires place == Done ==> Free(next)
    ensures QueueInv(GoTo(Move(w.(lists := after), t.id, place), c, next))
  {
    var w' := GoTo(Move(w.(lists := after), t.id, place), c, next);
    var k := Processing(t.queue, c);
    RemovedPlaced(w.lists, after, w.where, k, t, place);
    TypedAfterRemove(w.lists, after, k, t, w.jobOf);
    assert TaskFits(k, t, w.jobOf);
    hide Placed, Typed, At, NoRepeats;
    assert w.where[t.id] == InList(k) by {
      PlacedAt(w.lists, w.where, k, t);
    }
    assert w'.where.Keys == w.where.Keys;
    LocalKeepsQueueInv(w, w', c);
  }

  lemma PlacedAt(lists: Lists, where: map<string, Place>, k: Key, t: Task)
    requires Placed(lists, where) && t in At(lists, k)
    ensures t.id in where && where[t.id] == InList(k)
  {
  }

  /** A command that pushes the task the consumer holds. */
  lemma AddKeepsQueueInv(w: World, c: string, k: Key, t: Task, next: Point)
    requires QueueInv(w) && Gap(PointOf(w, c)) && PointOf(w, c).task.id == t.id
    requires TaskFits(k, t, w.jobOf) && Free(next)
    ensures QueueInv(GoTo(Move(w.(lists := LPush(w.lists, k, t)), t.id, InList(k)), c, next))
  {
    var after := LPush(w.lists, k, t);
    var w' := GoTo(Move(w.(lists := after), t.id, InList(k)), c, next);
    assert Fits(w, c);
    assert w.where[t.id] == InHand(c);
    PushLists(w.lists, w.where, w.jobOf, k, t);
    hide Placed, Typed, At, NoRepeats, TaskFits;
    assert w'.where.Keys == w.where.Keys;
    LocalKeepsQueueInv(w, w', c);
  }

  lemma PopLists(lists: Lists, where: map<string, Place>, jobOf: map<string, string>, k: Key, place: Place)
    requires Placed(lists, where) && Typed(lists, jobOf) && At(lists, k) != [] && !place.InList?
    ensures Rightmost(lists, k).Some?
    ensures var t := Rightmost(lists, k).value;
      && TaskFits(k, t, jobOf) && t.id in where && where[t.id] == InList(k) && t in At(lists, k)
      && Placed(RPop(lists, k), where[t.id := place]) && Typed(RPop(lists, k), jobOf)
      && Removed(lists, RPop(lists, k), k, t)
  {
    PopRemoves(lists, k);
    var t := Rightmost(lists, k).value;
    PlacedAt(lists, where, k, t);
    RemovedPlaced(lists, RPop(lists, k), where, k, t, place);
    TypedAfterRemove(lists, RPop(lists, k), k, t, jobOf);
  }

  lemma PushLists(lists: Lists, where: map<string, Place>, jobOf: map<string, string>, k: Key, t: Task)
    requires Placed(lists, where) && Typed(lists, jobOf) && TaskFits(k, t, jobOf)
    requires t.id in where ==> !where[t.id].InList?
    ensures Placed(LPush(lists, k, t), where[t.id := InList(k)]) && Typed(LPush(lists, k, t), jobOf)
    ensures Added(lists, LPush(lists, k, t), k, t)
  {
    PushAdds(lists, k, t);
    AddedPlaced(lists, LPush(lists, k, t), where, k, t);
    TypedAfterAdd(lists, LPush(lists, k, t), k, t, jobOf);
  }

  lemma TakeLists(lists: Lists, where: map<string, Place>, jobOf: map<string, string>, queue: string, c: string)
    requires Placed(lists, where) && Typed(lists, jobOf) && At(lists, Queue(queue)) != []
    ensures var t := Rightmost(lists, Queue(queue)).value;
      var to := Processing(queue, c);
      var after := RPopLPush(lists, Queue(queue), to);
      && t.queue == queue && t.id in where && where[t.id] == InList(Queue(queue))
      && Placed(after, where[t.id := InList(to)]) && Typed(after, jobOf) && t in At(after, to)
      && (forall k: Key, t': Task :: !k.Queue? && t' in At(lists, k) ==> t' in At(after, k))
  {
    var from, to := Queue(queue), Processing(queue, c);
    PopLists(lists, where, jobOf, from, Done);
    var t := Rightmost(lists, from).value;
    hide Placed, Typed, At, NoRepeats, RPop, LPush, Rightmost;
    PushLists(RPop(lists, from), where[t.id := Done], jobOf, to, t);
    assert where[t.id := Done][t.id := InList(to)] == where[t.id := InList(to)];
  }

  /** `RPOPLPUSH` from a queue to the consumer's processing list. */
  lemma TakeKeepsQueueInv(w: World, c: string, queue: string, otherwise: Point)
    requires QueueInv(w) && Free(PointOf(w, c)) && Free(otherwise)
    ensures QueueInv(Take(w, c, queue, otherwise))
  {
    if At(w.lists, Queue(queue)) == [] {
      PointKeepsQueueInv(w, c, otherwise);
    } else {
      TakeLists(w.lists, w.where, w.jobOf, queue, c);
      var w' := Take(w, c, queue, otherwise);
      hide Placed, Typed, At, Rightmost, RPopLPush, TaskFits;
      assert w'.where.Keys == w.where.Keys;
      LocalKeepsQueueInv(w, w', c);
    }
  }

  /** A command on the job store, and the consumer moves on. */
  lemma JobStepKeepsQueueInv(w: World, c: string, jobs: Runs, next: Point)
    requires QueueInv(w) && w.jobs.Keys <= jobs.Keys && !Gap(PointOf(w, c)) && !Gap(next)
    requires !Free(next) ==> !Free(PointOf(w, c)) && next.task == PointOf(w, c).task
    ensures QueueInv(GoTo(w.(jobs := jobs), c, next))
  {
    hide QueueInv;
    JobsKeepQueueInv(w, jobs);
    PointKeepsQueueInv(w.(jobs := jobs), c, next);
  }

  /** A consumer moves on without touching the lists, to a position that fits as well. */
  lemma PointKeepsQueueInv(w: World, c: string, next: Point)
    requires QueueInv(w) && !Gap(PointOf(w, c)) && !Gap(next)
    requires !Free(next) ==> !Free(PointOf(w, c)) && next.task == PointOf(w, c).task
    ensures QueueInv(GoTo(w, c, next))
  {
    hide Placed, Typed, At, TaskFits;
    assert Fits(w, c);
    LocalKeepsQueueInv(w, GoTo(w, c, next), c);
  }

  lemma JobsKeepQueueInv(w: World, jobs: Runs)
    requires QueueInv(w) && w.jobs.Keys <= jobs.Keys
    ensures QueueInv(w.(jobs := jobs))
  {
    var w' := w.(jobs := jobs);
    forall c
      ensures Fits(w', c)
    {
      assert Fits(w, c);
    }
    assert forall c :: PointOf(w', c) == PointOf(w, c);
  }

  lemma NewJobKeepsQueueInv(w: World, job: string)
    requires QueueInv(w)
    ensures QueueInv(NewJob(w, job))
  {
    if job !in w.jobs {
      JobsKeepQueueInv(w, NewJob(w, job).jobs);
    }
  }

  lemma EnqueueKeepsQueueInv(w: World, t: Task, full: bool)
    requires QueueInv(w)
    ensures QueueInv(EnqueueTask(w, t, full))
  {
    if t.job in w.jobs && !HasTask(w.jobOf, t.job) && t.id !in w.where && t.attempts == 0 {
      if full {
        ReportsKeepJobs(w.jobs, t.job);
        JobsKeepQueueInv(w, Report(w.jobs, t.job, CANCELLED));
      } else {
        TypedExtends(w.lists, w.jobOf, t);
        PushLists(w.lists, w.where, w.jobOf[t.id := t.job], Queue(t.queue), t);
        NewTaskFits(w, EnqueueTask(w, t, full), t);
      }
    }
  }

  lemma TypedExtends(lists: Lists, jobOf: map<string, string>, t: Task)
    requires Typed(lists, jobOf) && t.id !in jobOf
    ensures Typed(lists, jobOf[t.id := t.job])
  {
    forall k, t' | t' in At(lists, k)
      ensures TaskFits(k, t', jobOf[t.id := t.job])
    {
      assert TaskFits(k, t', jobOf);
    }
  }

  lemma NewTaskFits(w: World, w': World, t: Task)
    requires QueueInv(w) && t.job in w.jobs && !HasTask(w.jobOf, t.job) && t.id !in w.where
    requires w' == w.(jobOf := w.jobOf[t.id := t.job], lists := w'.lists,
                      where := w.where[t.id := InList(Queue(t.queue))])
    requires Placed(w'.lists, w'.where) && Typed(w'.lists, w'.jobOf)
    requires Added(w.lists, w'.lists, Queue(t.queue), t)
    ensures QueueInv(w')
  {
    hide Placed, Typed, At, NoRepeats;
    assert forall c :: PointOf(w', c) == PointOf(w, c);
    assert forall c :: Fits(w, c);
    assert w'.where.Keys == w.where.Keys + {t.id} && w'.jobOf.Keys == w.jobOf.Keys + {t.id};
    forall c
      ensures Fits(w', c)
    {
      assert Fits(w, c);
    }
  }

  /** Killing a consumer between the two commands of a move loses the task it holds. */
  lemma CrashKeepsQueueInv(w: World, c: string)
    requires QueueInv(w)
    ensures Shape(w) && QueueInv(Apply(w, Crash(c)))
  {
    InvShape(w);
    var p := PointOf(w, c);
    if Gap(p) {
      var w' := Apply(w, Crash(c));
      assert Fits(w, c) && w.where[p.task.id] == InHand(c);
      assert Placed(w'.lists, w'.where);
      assert w'.where.Keys == w.where.Keys;
      hide Placed, Typed, At;
      LocalKeepsQueueInv(w, w', c);
    } else {
      PointKeepsQueueInv(w, c, Down);
    }
  }

  lemma PushRecoveredKeepsQueueInv(w: World, c: string, at: nat, t: Task, withinLease: bool)
    requires QueueInv(w) && PointOf(w, c) == Recovered(at, t) && at < |w.queues|
    ensures QueueInv(PushRecovered(w, c, at, t, withinLease))
  {
    assert Fits(w, c);
    hide QueueInv, LPush;
    var k := if withinLease then Processing(w.queues[at], c) else Queue(w.queues[at]);
    AddKeepsQueueInv(w, c, k, t, Recovering(if withinLease then at + 1 else at));
  }

  lemma PushRetriedKeepsQueueInv(w: World, c: string, t: Task)
    requires QueueInv(w) && PointOf(w, c) == Returning(t)
    ensures QueueInv(PushRetried(w, c, t))
  {
    assert Fits(w, c);
    hide QueueInv, LPush;
    var k := RetryKey(t, MAX_ATTEMPTS);
    AddKeepsQueueInv(w, c, k, Again(t), if k.Dead? then SettingError(t) else Polling(0));
  }

  lemma LeaveKeepsQueueInv(w: World, c: string, t: Task, place: Place, next: Point)
    requires QueueInv(w) && (PointOf(w, c) == Acking(t) || PointOf(w, c) == Giving(t))
    requires (place == Done && Free(next)) || (place == InHand(c) && next == Returning(t))
    ensures QueueInv(Remove(w, c, t, place, next))
  {
    assert Fits(w, c);
    RemRemoves(w.lists, Processing(t.queue, c), t);
    hide QueueInv, LRem, Removed;
    RemoveKeepsQueueInv(w, c, t, LRem(w.lists, Processing(t.queue, c), t), place, next);
  }

  lemma ConsumeKeepsQueueInv(w: World, c: string, choice: Choice)
    requires QueueInv(w) && Shape(w)
    ensures QueueInv(Consume(w, c, choice))
  {
    hide QueueInv, Handle, Take, Remove, PushRetried, PushRecovered, PopProcessing, Report, MarkError;
    match PointOf(w, c)
    case Down =>
    case Recovering(at) => PopKeepsQueueInv(w, c, at);
    case Recovered(at, t) => PushRecoveredKeepsQueueInv(w, c, at, t, choice.withinLease);
    case Polling(at) =>
      TakeKeepsQueueInv(w, c, if at < |w.queues| then w.queues[at] else w.queues[0],
                        if at < |w.queues| then Polling(at + 1) else Polling(0));
    case Working(t, stage) =>
      HandleStays(w.jobs, t, stage, choice);
      JobStepKeepsQueueInv(w, c, Handle(w.jobs, t, stage, choice).0, Handle(w.jobs, t, stage, choice).1);
    case Acking(t) => LeaveKeepsQueueInv(w, c, t, Done, Polling(0));
    case Giving(t) => LeaveKeepsQueueInv(w, c, t, InHand(c), Returning(t));
    case Returning(t) => PushRetriedKeepsQueueInv(w, c, t);
    case SettingError(t) =>
      ReportsKeepJobs(w.jobs, t.job);
      JobStepKeepsQueueInv(w, c, MarkError(w.jobs, t.job), SettingFailed(t));
    case SettingFailed(t) =>
      ReportsKeepJobs(w.jobs, t.job);
      JobStepKeepsQueueInv(w, c, Report(w.jobs, t.job, FAILED), Polling(0));
  }

  lemma ReportsKeepJobs(jobs: Runs, job: string)
    ensures MarkError(jobs, job).Keys == jobs.Keys
    ensures forall s :: Report(jobs, job, s).Keys == jobs.Keys
  {
  }

  lemma HandleStays(jobs: Runs, t: Task, stage: nat, choice: Choice)
    ensures var (jobs', next) := Handle(jobs, t, stage, choice);
      jobs'.Keys == jobs.Keys && !Gap(next) && !Free(next) && next.task == t
  {
  }

  lemma PopKeepsQueueInv(w: World, c: string, at: nat)
    requires QueueInv(w) && PointOf(w, c) == Recovering(at)
    ensures QueueInv(PopProcessing(w, c, at))
  {
    hide HandsHold, OneTaskPerJob, Fits, RPop;
    if at >= |w.queues| {
      PointKeepsQueueInv(w, c, Polling(0));
    } else if At(w.lists, Processing(w.queues[at], c)) == [] {
      PointKeepsQueueInv(w, c, Recovering(at + 1));
    } else {
      var k := Processing(w.queues[at], c);
      PopLists(w.lists, w.where, w.jobOf, k, InHand(c));
      var t := Rightmost(w.lists, k).value;
      RemoveKeepsQueueInv(w, c, t, RPop(w.lists, k), InHand(c), Recovered(at, t));
    }
  }

  lemma StepKeepsQueueInv(w: World, step: Step)
    requires QueueInv(w) && Shape(w)
    ensures QueueInv(Apply(w, step))
  {
    match step
    case CreateJob(job) => NewJobKeepsQueueInv(w, job);
    case Enqueue(t, full) => EnqueueKeepsQueueInv(w, t, full);
    case Cancel(job) => JobsKeepQueueInv(w, Report(w.jobs, job, CANCELLED));
    case Start(c) => if PointOf(w, c).Down? { PointKeepsQueueInv(w, c, Recovering(0)); }
    case Stop(c) => if PointOf(w, c).Polling? { PointKeepsQueueInv(w, c, Down); }
    case Crash(c) => CrashKeepsQueueInv(w, c);
    case Advance(c, choice) => ConsumeKeepsQueueInv(w, c, choice);
  }

  // ---- What the steps do to jobs ----------------------------------------------------------

  /** No job became finished or stopped being finished, and no transcript disappeared. */
  ghost predicate SameOutcome(jobs: Runs, jobs': Runs) {
    && (forall j :: JobFinished(jobs', j) <==> JobFinished(jobs, j))
    && (forall j :: j in jobs ==> j in jobs' && (jobs[j].segments.Some? ==> jobs'[j].segments.Some?))
  }

  lemma UnfinishedReport(jobs: Runs, job: string, s: JobState)
    requires !Finished(s)
    ensures SameOutcome(jobs, Report(jobs, job, s))
    ensures CanReport(jobs, job, s) ==> !JobFinished(Report(jobs, job, s), job)
  {
  }

  /** Two consumers never hold the same job. */
  lemma OneWorkerPerJob(w: World, c: string, d: string)
    requires QueueInv(w) && !Free(PointOf(w, c)) && !Gap(PointOf(w, c)) && !Free(PointOf(w, d)) && !Gap(PointOf(w, d))
    requires PointOf(w, c).task.job == PointOf(w, d).task.job
    ensures c == d
  {
    assert Fits(w, c) && Fits(w, d);
    var t, u := PointOf(w, c).task, PointOf(w, d).task;
    assert TaskFits(Processing(t.queue, c), t, w.jobOf) && TaskFits(Processing(u.queue, d), u, w.jobOf);
    PlacedAt(w.lists, w.where, Processing(t.queue, c), t);
    PlacedAt(w.lists, w.where, Processing(u.queue, d), u);
  }

  lemma SameOutcomeKeepsEffects(w: World, w': World, c: string)
    requires EffectInv(w) && SameOutcome(w.jobs, w'.jobs)
    requires forall d :: d != c ==> PointOf(w', d) == PointOf(w, d)
    requires Effects(w'.jobs, PointOf(w', c))
    requires forall id :: id in w.jobOf ==> id in w'.jobOf && w'.jobOf[id] == w.jobOf[id]
    requires forall id :: id in w'.where && w'.where[id] == Done ==>
      (id in w.where && w.where[id] == Done) || (id in w'.jobOf && JobFinished(w'.jobs, w'.jobOf[id]))
    ensures EffectInv(w')
  {
    forall d
      ensures Effects(w'.jobs, PointOf(w', d))
    {
      assert Effects(w.jobs, PointOf(w, d));
    }
  }

  /** The step that finishes a job: it was not finished, and nobody else works on it. */
  lemma FinishKeepsEffects(w: World, c: string, t: Task, s: JobState)
    requires Inv(w) && PointOf(w, c).Working? && PointOf(w, c).task == t && PointOf(w, c).stage >= 7
    requires Finished(s) && CanReport(w.jobs, t.job, s)
    ensures EffectInv(GoTo(w.(jobs := Report(w.jobs, t.job, s)), c, Acking(t)))
  {
    var w' := GoTo(w.(jobs := Report(w.jobs, t.job, s)), c, Acking(t));
    assert Effects(w.jobs, PointOf(w, c));
    forall d
      ensures Effects(w'.jobs, PointOf(w', d))
    {
      assert Effects(w.jobs, PointOf(w, d));
      if d != c && PointOf(w, d).Working? && PointOf(w, d).task.job == t.job {
        OneWorkerPerJob(w, c, d);
      }
    }
  }

  lemma HandleKeepsEffects(w: World, c: string, t: Task, stage: nat, choice: Choice)
    requires Inv(w) && PointOf(w, c) == Working(t, stage)
    ensures var (jobs, next) := Handle(w.jobs, t, stage, choice);
      EffectInv(GoTo(w.(jobs := jobs), c, next))
  {
    var (jobs, next) := Handle(w.jobs, t, stage, choice);
    var w' := GoTo(w.(jobs := jobs), c, next);
    assert Effects(w.jobs, PointOf(w, c));
    WorkingJobKnown(w, c);
    hide QueueInv, EffectInv;
    if !choice.raises && stage >= 7 {
      var final := if choice.degraded then DEGRADED_SUCCEEDED else SUCCEEDED;
      if CanReport(w.jobs, t.job, final) {
        FinishKeepsEffects(w, c, t, final);
      } else {
        SameOutcomeKeepsEffects(w, w', c);
      }
    } else {
      if stage < 6 {
        UnfinishedReport(w.jobs, t.job, STAGES[stage]);
      }
      SameOutcomeKeepsEffects(w, w', c);
    }
  }

  lemma WorkingJobKnown(w: World, c: string)
    requires QueueInv(w) && !Free(PointOf(w, c)) && !Gap(PointOf(w, c))
    ensures var t := PointOf(w, c).task;
      t.job in w.jobs && t.id in w.jobOf && w.jobOf[t.id] == t.job
  {
    assert Fits(w, c);
    var t := PointOf(w, c).task;
    assert TaskFits(Processing(t.queue, c), t, w.jobOf);
  }

  /** A step that only moves tasks: no job, no acknowledgement, no work beyond the first report. */
  ghost predicate Quiet(w: World, w': World, c: string) {
    && w'.jobs == w.jobs && w'.jobOf == w.jobOf
    && (forall d :: d != c ==> PointOf(w', d) == PointOf(w, d))
    && !PointOf(w', c).Acking? && (PointOf(w', c).Working? ==> PointOf(w', c).stage == 0)
    && (forall id :: id in w'.where && w'.where[id] == Done ==> id in w.where && w.where[id] == Done)
  }

  lemma QuietKeepsEffects(w: World, w': World, c: string)
    requires EffectInv(w) && Quiet(w, w', c)
    ensures EffectInv(w')
  {
    hide EffectInv;
    SameOutcomeKeepsEffects(w, w', c);
  }

  lemma MoveIsQuiet(w: World, lists: Lists, id: string, place: Place, c: string, next: Point)
    requires place != Done && !next.Acking? && (next.Working? ==> next.stage == 0)
    ensures Quiet(w, GoTo(Move(w.(lists := lists), id, place), c, next), c)
    ensures Quiet(w, GoTo(w, c, next), c)
  {
  }

  lemma ConsumeIsQuiet(w: World, c: string, choice: Choice)
    requires Shape(w)
    requires var p := PointOf(w, c); p.Recovering? || p.Recovered? || p.Polling? || p.Giving? || p.Returning?
    ensures Quiet(w, Consume(w, c, choice), c)
  {
    hide Quiet, LRem, LPush, RPop, RPopLPush, Rightmost, RetryKey, Again;
    match PointOf(w, c)
    case Recovering(at) =>
      MoveIsQuiet(w, w.lists, "", Lost, c, if at >= |w.queues| then Polling(0) else Recovering(at + 1));
      if at < |w.queues| {
        var k := Processing(w.queues[at], c);
        var t := Rightmost(w.lists, k);
        if t.Some? {
          MoveIsQuiet(w, RPop(w.lists, k), t.value.id, InHand(c), c, Recovered(at, t.value));
        }
      }
    case Recovered(at, t) =>
      var k := if choice.withinLease then Processing(w.queues[at], c) else Queue(w.queues[at]);
      MoveIsQuiet(w, LPush(w.lists, k, t), t.id, InList(k), c, Recovering(if choice.withinLease then at + 1 else at));
    case Polling(at) =>
      var q := if at < |w.queues| then w.queues[at] else w.queues[0];
      var t := Rightmost(w.lists, Queue(q));
      MoveIsQuiet(w, w.lists, "", Lost, c, if at < |w.queues| then Polling(at + 1) else Polling(0));
      if t.Some? {
        var k := Processing(q, c);
        MoveIsQuiet(w, RPopLPush(w.lists, Queue(q), k), t.value.id, InList(k), c, Working(t.value, 0));
      }
    case Giving(t) =>
      MoveIsQuiet(w, LRem(w.lists, Processing(t.queue, c), t), t.id, InHand(c), c, Returning(t));
    case Returning(t) =>
      var k := RetryKey(t, MAX_ATTEMPTS);
      MoveIsQuiet(w, LPush(w.lists, k, Again(t)), t.id, InList(k), c, if k.Dead? then SettingError(t) else Polling(0));
    case _ =>
  }

  lemma AckKeepsEffects(w: World, c: string, t: Task)
    requires Inv(w) && PointOf(w, c) == Acking(t)
    ensures EffectInv(Remove(w, c, t, Done, Polling(0)))
  {
    WorkingJobKnown(w, c);
    assert Effects(w.jobs, PointOf(w, c));
    hide QueueInv, EffectInv, LRem;
    SameOutcomeKeepsEffects(w, Remove(w, c, t, Done, Polling(0)), c);
  }

  /** A change of the job store that settles nothing, and the consumer moves on. */
  lemma SettleKeepsEffects(w: World, c: string, jobs: Runs, next: Point)
    requires Inv(w) && SameOutcome(w.jobs, jobs) && !next.Working? && !next.Acking?
    ensures EffectInv(GoTo(w.(jobs := jobs), c, next))
    ensures EffectInv(w.(jobs := jobs))
  {
    var w1 := w.(jobs := jobs);
    assert Effects(w.jobs, PointOf(w, c));
    hide QueueInv, EffectInv;
    assert forall d :: PointOf(w1, d) == PointOf(w, d);
    AckedStay(w, jobs);
    SameOutcomeKeepsEffects(w, w1, c);
    SameOutcomeKeepsEffects(w, GoTo(w1, c, next), c);
  }

  lemma AckedStay(w: World, jobs: Runs)
    requires EffectInv(w) && SameOutcome(w.jobs, jobs)
    ensures forall id :: id in w.where && w.where[id] == Done ==> id in w.jobOf && JobFinished(jobs, w.jobOf[id])
  {
  }

  lemma ConsumeKeepsEffects(w: World, c: string, choice: Choice)
    requires Inv(w) && Shape(w)
    ensures EffectInv(Consume(w, c, choice))
  {
    var p := PointOf(w, c);
    hide QueueInv, EffectInv, Remove, PushRetried, PushRecovered, PopProcessing, Poll;
    match p
    case Down =>
    case Working(t, stage) => HandleKeepsEffects(w, c, t, stage, choice);
    case Acking(t) => AckKeepsEffects(w, c, t);
    case SettingError(t) => SettleKeepsEffects(w, c, MarkError(w.jobs, t.job), SettingFailed(t));
    case SettingFailed(t) =>
      UnfinishedReport(w.jobs, t.job, FAILED);
      SettleKeepsEffects(w, c, Report(w.jobs, t.job, FAILED), Polling(0));
    case _ =>
      ConsumeIsQuiet(w, c, choice);
      QuietKeepsEffects(w, Consume(w, c, choice), c);
  }

  lemma NewJobKeepsEffects(w: World, job: string)
    requires Inv(w)
    ensures EffectInv(NewJob(w, job))
  {
    var w' := NewJob(w, job);
    assert Effects(w.jobs, PointOf(w, ""));
    hide QueueInv, EffectInv;
    AckedStay(w, w'.jobs);
    SameOutcomeKeepsEffects(w, w', "");
  }

  lemma EnqueueKeepsEffects(w: World, t: Task, full: bool)
    requires Inv(w)
    ensures EffectInv(EnqueueTask(w, t, full))
  {
    var w' := EnqueueTask(w, t, full);
    EnqueueOutcome(w, t, full);
    assert w.where.Keys == w.jobOf.Keys;
    assert Effects(w.jobs, PointOf(w, ""));
    hide QueueInv, EffectInv, LPush, Report, HasTask, SameOutcome, JobFinished;
    AckedStay(w, w'.jobs);
    SameOutcomeKeepsEffects(w, w', "");
  }

  lemma EnqueueOutcome(w: World, t: Task, full: bool)
    ensures SameOutcome(w.jobs, EnqueueTask(w, t, full).jobs)
    ensures forall p :: Effects(w.jobs, p) ==> Effects(EnqueueTask(w, t, full).jobs, p)
  {
    UnfinishedReport(w.jobs, t.job, CANCELLED);
  }

  lemma StepKeepsInv(w: World, step: Step)
    requires Inv(w)
    ensures Shape(w) && Inv(Apply(w, step))
  {
    InvShape(w);
    StepKeepsQueueInv(w, step);
    StepKeepsEffects(w, step);
  }

  lemma StepKeepsEffects(w: World, step: Step)
    requires Inv(w) && Shape(w)
    ensures EffectInv(Apply(w, step))
  {
    hide QueueInv, EffectInv, Consume, NewJob, EnqueueTask;
    match step
    case Advance(c, choice) => ConsumeKeepsEffects(w, c, choice);
    case CreateJob(job) => NewJobKeepsEffects(w, job);
    case Enqueue(t, full) => EnqueueKeepsEffects(w, t, full);
    case Cancel(job) =>
      UnfinishedReport(w.jobs, job, CANCELLED);
      SettleKeepsEffects(w, "", Report(w.jobs, job, CANCELLED), Down);
    case Start(c) =>
      MoveIsQuiet(w, w.lists, "", Lost, c, Recovering(0));
      if PointOf(w, c).Down? {
        QuietKeepsEffects(w, Apply(w, step), c);
      }
    case Stop(c) =>
      MoveIsQuiet(w, w.lists, "", Lost, c, Down);
      if PointOf(w, c).Polling? {
        QuietKeepsEffects(w, Apply(w, step), c);
      }
    case Crash(c) =>
      var p := PointOf(w, c);
      if Gap(p) {
        MoveIsQuiet(w, w.lists, p.task.id, Lost, c, Down);
      } else {
        MoveIsQuiet(w, w.lists, "", Lost, c, Down);
      }
      QuietKeepsEffects(w, Apply(w, step), c);
  }
}
