/** When what a dead consumer held comes back.

A consumer requeues what is in its own processing lists, and only when a process comes up under its
name.  So a task left behind can come back exactly when the name can.
*/
module Recovery {
  import opened Delivery
  import opened DeliverySafety
  import opened TaskQueue

  /** The lease has run out; the other choices do not matter for a consumer that recovers. */
  const EXPIRED := Choice(false, false, false, false, "")

  /** No other process than those with these names is started. */
  predicate StartsOnly(steps: seq<Step>, names: set<string>) {
    forall i :: 0 <= i < |steps| && steps[i].Start? ==> steps[i].consumer in names
  }

  lemma StartsOnlyConcat(a: seq<Step>, b: seq<Step>, names: set<string>)
    requires StartsOnly(a, names) && StartsOnly(b, names)
    ensures StartsOnly(a + b, names)
  {
  }

  ghost predicate Waits(w: World, t: Task, queue: string) {
    t in At(w.lists, Queue(queue))
  }

  ghost predicate LeftBehind(w: World, t: Task, queue: string, c: string) {
    t in At(w.lists, Processing(queue, c))
  }

  /** Nothing is left in this list: the consumer goes on to the next. */
  lemma PopNothing(w: World, c: string, at: nat)
    requires Shape(w) && PointOf(w, c) == Recovering(at) && at < |w.queues|
    requires At(w.lists, Processing(w.queues[at], c)) == []
    ensures var w' := Apply(w, Advance(c, EXPIRED));
      PointOf(w', c) == Recovering(at + 1) && w'.lists == w.lists && w'.queues == w.queues
  {
  }

  /** One task goes from the right end of the processing list to the queue. */
  lemma PopThenPush(w: World, c: string, at: nat)
    requires Shape(w) && PointOf(w, c) == Recovering(at) && at < |w.queues|
    requires At(w.lists, Processing(w.queues[at], c)) != []
    requires Shape(Apply(w, Advance(c, EXPIRED)))
    ensures var queue := w.queues[at];
      var k, t := Processing(queue, c), Rightmost(w.lists, Processing(queue, c)).value;
      var w' := Apply(Apply(w, Advance(c, EXPIRED)), Advance(c, EXPIRED));
      && PointOf(w', c) == Recovering(at) && w'.queues == w.queues
      && w'.lists == LPush(RPop(w.lists, k), Queue(queue), t)
  {
    hide LPush, RPop;
  }

  /** Every task stays where it is or is the one that moved. */
  lemma PoppedAndPushed(lists: Lists, queue: string, c: string, t: Task, goal: string)
    requires At(lists, Processing(queue, c)) != [] && t in At(lists, Processing(goal, c))
    ensures Rightmost(lists, Processing(queue, c)).Some?
    ensures var k := Processing(queue, c);
      var after := LPush(RPop(lists, k), Queue(queue), Rightmost(lists, k).value);
      && |At(after, k)| == |At(lists, k)| - 1
      && (t in At(after, Processing(goal, c)) || t in At(after, Queue(goal)))
  {
    var list := At(lists, Processing(queue, c));
    assert list == list[..|list| - 1] + [list[|list| - 1]];
  }

  lemma OneMoved(w: World, c: string, at: nat, goal: string, t: Task)
    requires Inv(w) && PointOf(w, c) == Recovering(at) && at < |w.queues|
    requires At(w.lists, Processing(w.queues[at], c)) != [] && LeftBehind(w, t, goal, c)
    ensures var w' := Execute(w, [Advance(c, EXPIRED), Advance(c, EXPIRED)]);
      && PointOf(w', c) == Recovering(at) && w'.queues == w.queues
      && |At(w'.lists, Processing(w.queues[at], c))| == |At(w.lists, Processing(w.queues[at], c))| - 1
      && (Waits(w', t, goal) || LeftBehind(w', t, goal, c))
  {
    TwoSteps(w, Advance(c, EXPIRED), Advance(c, EXPIRED));
    hide Inv, Apply, Execute, PointOf, At, Shape, LPush, RPop, Rightmost;
    PopThenPush(w, c, at);
    PoppedAndPushed(w.lists, w.queues[at], c, t, goal);
  }

  lemma OnePassed(w: World, c: string, at: nat)
    requires Inv(w) && PointOf(w, c) == Recovering(at) && at < |w.queues|
    requires At(w.lists, Processing(w.queues[at], c)) == []
    ensures var w' := Execute(w, [Advance(c, EXPIRED)]);
      PointOf(w', c) == Recovering(at + 1) && w'.lists == w.lists && w'.queues == w.queues
  {
    ExecuteOne(w, Advance(c, EXPIRED));
    hide Inv, Apply, Execute, PointOf, At, Shape;
    PopNothing(w, c, at);
  }

  lemma EmptyHoldsNone(w: World, c: string, queue: string, t: Task)
    requires At(w.lists, Processing(queue, c)) == []
    ensures !LeftBehind(w, t, queue, c)
  {
  }

  lemma SameLists(w: World, w': World, t: Task, queue: string, c: string)
    requires w'.lists == w.lists
    ensures LeftBehind(w', t, queue, c) <==> LeftBehind(w, t, queue, c)
  {
  }

  /** A consumer that comes up empties its processing lists from queue to queue; on its way it puts
  the task back. */
  lemma {:induction false} RecoveryReaches(w: World, c: string, at: nat, goal: nat, t: Task) returns (steps: seq<Step>)
    requires Inv(w) && PointOf(w, c) == Recovering(at) && at <= goal < |w.queues|
    requires LeftBehind(w, t, w.queues[goal], c)
    ensures StartsOnly(steps, {})
    ensures Waits(Execute(w, steps), t, w.queues[goal])
    decreases goal - at, |At(w.lists, Processing(w.queues[at], c))|
  {
    hide *;
    var first: seq<Step> := [];
    var next := at;
    if At(w.lists, Processing(w.queues[at], c)) == [] {
      EmptyHoldsNone(w, c, w.queues[at], t);
      first, next := [Advance(c, EXPIRED)], at + 1;
      OnePassed(w, c, at);
      SameLists(w, Execute(w, first), t, w.queues[goal], c);
    } else {
      first := [Advance(c, EXPIRED), Advance(c, EXPIRED)];
      OneMoved(w, c, at, w.queues[goal], t);
    }
    assert StartsOnly(first, {}) by { AdvancesStartNobody(c); }
    if Waits(Execute(w, first), t, w.queues[goal]) {
      steps := first;
    } else {
      var rest := RecoveryReaches(Execute(w, first), c, next, goal, t);
      steps := first + rest;
      ExecuteMore(w, first, rest);
      StartsOnlyConcat(first, rest, {});
    }
  }

  lemma AdvancesStartNobody(c: string)
    ensures StartsOnly([Advance(c, EXPIRED)], {}) && StartsOnly([Advance(c, EXPIRED), Advance(c, EXPIRED)], {})
  {
  }

  ghost predicate BringsBack(w: World, steps: seq<Step>, names: set<string>, t: Task, queue: string)
    requires Inv(w)
  {
    StartsOnly(steps, names) && Waits(Execute(w, steps), t, queue)
  }

  /** A restart under the same name can bring the task back. */
  lemma RestartRecovers(w: World, c: string, goal: nat, t: Task, names: set<string>) returns (steps: seq<Step>)
    requires Inv(w) && PointOf(w, c).Down? && goal < |w.queues| && LeftBehind(w, t, w.queues[goal], c)
    requires c in names
    ensures BringsBack(w, steps, names, t, w.queues[goal])
  {
    hide *;
    Restarted(w, c);
    SameLists(w, Execute(w, [Start(c)]), t, w.queues[goal], c);
    var rest := RecoveryReaches(Execute(w, [Start(c)]), c, 0, goal, t);
    steps := [Start(c)] + rest;
    ExecuteMore(w, [Start(c)], rest);
    StartAllowed(c, rest, names);
    BringsBackIs(w, steps, names, t, w.queues[goal]);
  }

  lemma StartAllowed(c: string, rest: seq<Step>, names: set<string>)
    requires StartsOnly(rest, {}) && c in names
    ensures StartsOnly([Start(c)] + rest, names)
  {
  }

  lemma BringsBackIs(w: World, steps: seq<Step>, names: set<string>, t: Task, queue: string)
    requires Inv(w)
    ensures BringsBack(w, steps, names, t, queue) <==> StartsOnly(steps, names) && Waits(Execute(w, steps), t, queue)
  {
    hide Inv, Execute;
  }

  lemma Restarted(w: World, c: string)
    requires Inv(w) && PointOf(w, c).Down?
    ensures var w' := Execute(w, [Start(c)]);
      PointOf(w', c) == Recovering(0) && w'.lists == w.lists && w'.queues == w.queues
  {
    ExecuteOne(w, Start(c));
    hide Inv, Execute;
  }

  lemma NotInBoth(w: World, t: Task, queue: string, c: string)
    requires Inv(w) && LeftBehind(w, t, queue, c)
    ensures !Waits(w, t, queue)
  {
    PlacedAt(w.lists, w.where, Processing(queue, c), t);
    if Waits(w, t, queue) {
      PlacedAt(w.lists, w.where, Queue(queue), t);
      assert false;
    }
  }

  /** Whatever the other consumers do, a task a dead consumer held can come back to its queue exactly
  when a process may come up under the dead consumer's name. */
  lemma RecoverableIff(w: World, c: string, goal: nat, t: Task, names: set<string>)
    requires Inv(w) && PointOf(w, c).Down? && goal < |w.queues| && LeftBehind(w, t, w.queues[goal], c)
    ensures (exists steps :: BringsBack(w, steps, names, t, w.queues[goal])) <==> c in names
  {
    var queue := w.queues[goal];
    if c in names {
      var steps := RestartRecovers(w, c, goal, t, names);
    }
    hide Inv, Apply, Execute, PointOf;
    forall steps | c !in names && StartsOnly(steps, names)
      ensures !Waits(Execute(w, steps), t, queue)
    {
      assert Start(c) !in steps;
      StrandedForever(w, steps, c, queue);
      NotInBoth(Execute(w, steps), t, queue, c);
    }
  }
}
