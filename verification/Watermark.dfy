/** What one streaming step hands on, and the emission watermark.

Each step sees the voice activity of the current window.  An interval that ends after the watermark
and is followed by enough silence is closed: its part behind the watermark is handed to transcription
outside the overlap regions, each overlap region it meets is routed to the overlap path, and the
watermark moves to the last closed end.
*/
module Watermark {
  import opened Ownership
  import opened Timeline

  datatype Step = Step(speech: seq<TimeInterval>, overlaps: seq<TimeInterval>, now: nat, force: bool)

  predicate Ready(x: TimeInterval, step: Step, emitted: nat, silence: int) {
    x.end > emitted && (step.force || step.now - x.end >= silence)
  }

  function Behind(x: TimeInterval, emitted: nat): TimeInterval
    requires x.end > emitted
  {
    Interval(Max(x.start, emitted), x.end)
  }

  /** The closed intervals of a step, cut at the watermark. */
  function Pending(speech: seq<TimeInterval>, step: Step, emitted: nat, silence: int): seq<TimeInterval> {
    if speech == [] then []
    else
      var last := speech[|speech| - 1];
      Pending(speech[..|speech| - 1], step, emitted, silence)
      + (if Ready(last, step, emitted, silence) then [Behind(last, emitted)] else [])
  }

  function Mark(speech: seq<TimeInterval>, step: Step, emitted: nat, silence: int): (r: nat)
    ensures r >= emitted
  {
    if speech == [] then emitted
    else
      var last := speech[|speech| - 1];
      var before := Mark(speech[..|speech| - 1], step, emitted, silence);
      if Ready(last, step, emitted, silence) then Max(before, last.end) else before
  }

  /** The slices transcribed outside the overlap regions. */
  function Slices(pending: seq<TimeInterval>, overlaps: seq<TimeInterval>): seq<TimeInterval> {
    if pending == [] then []
    else Slices(pending[..|pending| - 1], overlaps) + NonOverlap([pending[|pending| - 1]], overlaps)
  }

  function StepSlices(step: Step, emitted: nat, silence: int): seq<TimeInterval> {
    Slices(Pending(step.speech, step, emitted, silence), step.overlaps)
  }

  /** The watermark and everything handed to transcription after some steps. */
  function Run(steps: seq<Step>, silence: int): (nat, seq<TimeInterval>) {
    if steps == [] then (0, [])
    else
      var (emitted, handed) := Run(steps[..|steps| - 1], silence);
      var step := steps[|steps| - 1];
      (Mark(step.speech, step, emitted, silence), handed + StepSlices(step, emitted, silence))
  }

  // ---- One step ---------------------------------------------------------------------------

  lemma {:induction false} OwnersSnoc(s: seq<TimeInterval>, x: TimeInterval, p: int)
    ensures Owners(s + [x], p) == Owners(s, p) + (if x.Contains(p) then 1 else 0)
  {
    OwnersConcat(s, [x], p);
    assert Owners([x], p) == if x.Contains(p) then 1 else 0;
  }

  /** A millisecond is pending as often as closed intervals hold it, from the watermark on; and the
  new watermark is past all of them. */
  lemma {:induction false} PendingCounts(speech: seq<TimeInterval>, step: Step, emitted: nat, silence: int, p: int)
    ensures Owners(Pending(speech, step, emitted, silence), p)
         <= if p >= emitted then Owners(speech, p) else 0
    ensures Owners(Pending(speech, step, emitted, silence), p) > 0 ==> p < Mark(speech, step, emitted, silence)
  {
    if speech != [] {
      var init, last := speech[..|speech| - 1], speech[|speech| - 1];
      PendingCounts(init, step, emitted, silence, p);
      OwnersSnoc(init, last, p);
      assert init + [last] == speech;
      var before := Pending(init, step, emitted, silence);
      assert before + [] == before;
      if last.end > emitted {
        OwnersSnoc(before, Behind(last, emitted), p);
      }
    }
  }

  lemma SlicesSnoc(init: seq<TimeInterval>, last: TimeInterval, overlaps: seq<TimeInterval>)
    ensures Slices(init + [last], overlaps) == Slices(init, overlaps) + NonOverlap([last], overlaps)
  {
    hide NonOverlap;
    assert (init + [last])[..|init|] == init;
  }

  lemma SliceCount(x: TimeInterval, overlaps: seq<TimeInterval>, p: int)
    ensures Owners(NonOverlap([x], overlaps), p) <= if x.Contains(p) then 1 else 0
    ensures Owners(NonOverlap([x], overlaps), p) > 0 ==> !Covered(overlaps, p)
  {
    hide *;
    NonOverlapOwner([x], overlaps, p);
    CoveredOne(x, p);
  }

  lemma SlicesCountNext(init: seq<TimeInterval>, last: TimeInterval, overlaps: seq<TimeInterval>, p: int)
    requires Owners(Slices(init, overlaps), p) <= Owners(init, p)
    requires Owners(Slices(init, overlaps), p) > 0 ==> !Covered(overlaps, p)
    ensures Owners(Slices(init + [last], overlaps), p) <= Owners(init + [last], p)
    ensures Owners(Slices(init + [last], overlaps), p) > 0 ==> !Covered(overlaps, p)
  {
    hide *;
    SlicesSnoc(init, last, overlaps);
    OwnersConcat(Slices(init, overlaps), NonOverlap([last], overlaps), p);
    OwnersSnoc(init, last, p);
    SliceCount(last, overlaps, p);
  }

  lemma {:induction false} SlicesCount(pending: seq<TimeInterval>, overlaps: seq<TimeInterval>, p: int)
    ensures Owners(Slices(pending, overlaps), p) <= Owners(pending, p)
    ensures Owners(Slices(pending, overlaps), p) > 0 ==> !Covered(overlaps, p)
  {
    if pending != [] {
      hide *;
      var init, last := pending[..|pending| - 1], pending[|pending| - 1];
      SlicesCount(init, overlaps, p);
      SlicesCountNext(init, last, overlaps, p);
      assert init + [last] == pending;
    }
  }

  lemma StepSlicesCount(step: Step, emitted: nat, silence: int, p: int)
    ensures Owners(StepSlices(step, emitted, silence), p) <= Owners(step.speech, p)
    ensures Owners(StepSlices(step, emitted, silence), p) > 0 ==>
      emitted <= p < Mark(step.speech, step, emitted, silence) && !Covered(step.overlaps, p)
  {
    PendingCounts(step.speech, step, emitted, silence, p);
    SlicesCount(Pending(step.speech, step, emitted, silence), step.overlaps, p);
  }

  // ---- Whole runs -------------------------------------------------------------------------

  ghost predicate Once(slices: seq<TimeInterval>) {
    forall p :: Owners(slices, p) <= 1
  }

  /** What the `k`-th step of a run hands on. */
  function HandedAt(steps: seq<Step>, silence: int, k: nat): seq<TimeInterval>
    requires k < |steps|
  {
    StepSlices(steps[k], Run(steps[..k], silence).0, silence)
  }

  ghost predicate EachOnce(steps: seq<Step>, silence: int) {
    forall k :: 0 <= k < |steps| ==> Once(HandedAt(steps, silence, k))
  }

  /** The watermark never moves back. */
  lemma {:induction false} WatermarkMonotone(steps: seq<Step>, more: seq<Step>, silence: int)
    ensures Run(steps, silence).0 <= Run(steps + more, silence).0
  {
    if more == [] {
      assert steps + more == steps;
    } else {
      var all := steps + more;
      assert all[..|all| - 1] == steps + more[..|more| - 1];
      WatermarkMonotone(steps, more[..|more| - 1], silence);
      WatermarkNext(all, silence);
      hide Run;
    }
  }

  lemma WatermarkNext(steps: seq<Step>, silence: int)
    requires steps != []
    ensures Run(steps[..|steps| - 1], silence).0 <= Run(steps, silence).0
  {
    hide Mark, StepSlices;
  }

  lemma {:induction false} HandedBelow(steps: seq<Step>, silence: int, p: int)
    ensures Owners(Run(steps, silence).1, p) > 0 ==> p < Run(steps, silence).0
  {
    if steps != [] {
      var init, step := steps[..|steps| - 1], steps[|steps| - 1];
      HandedBelow(init, silence, p);
      var (emitted, handed) := Run(init, silence);
      StepSlicesCount(step, emitted, silence, p);
      OwnersConcat(handed, StepSlices(step, emitted, silence), p);
      hide StepSlices, Mark;
    }
  }

  lemma EachOnceSnoc(steps: seq<Step>, silence: int)
    requires steps != []
    ensures EachOnce(steps, silence)
       <==> EachOnce(steps[..|steps| - 1], silence) && Once(HandedAt(steps, silence, |steps| - 1))
  {
    hide Once, HandedAt;
    var init := steps[..|steps| - 1];
    forall k | 0 <= k < |init|
      ensures HandedAt(init, silence, k) == HandedAt(steps, silence, k)
    {
      HandedPrefix(steps, silence, k);
    }
  }

  lemma HandedPrefix(steps: seq<Step>, silence: int, k: nat)
    requires k < |steps| - 1
    ensures HandedAt(steps[..|steps| - 1], silence, k) == HandedAt(steps, silence, k)
  {
    hide Run, StepSlices;
    assert steps[..|steps| - 1][..k] == steps[..k];
  }

  lemma OnceTogether(handed: seq<TimeInterval>, slices: seq<TimeInterval>, emitted: nat)
    requires forall p :: Owners(handed, p) > 0 ==> p < emitted
    requires forall p :: Owners(slices, p) > 0 ==> p >= emitted
    ensures Once(handed + slices) <==> Once(handed) && Once(slices)
  {
    hide Owners;
    forall p
      ensures Owners(handed + slices, p) == Owners(handed, p) + Owners(slices, p)
    {
      OwnersConcat(handed, slices, p);
    }
  }

  /** Over a whole run no millisecond is handed to transcription twice, exactly when no single step
  hands one on twice: what one step has handed on, no later step sees again. */
  lemma {:induction false} RunHandsOnceIff(steps: seq<Step>, silence: int)
    ensures Once(Run(steps, silence).1) <==> EachOnce(steps, silence)
  {
    if steps != [] {
      var init, step := steps[..|steps| - 1], steps[|steps| - 1];
      RunHandsOnceIff(init, silence);
      EachOnceSnoc(steps, silence);
      var (emitted, handed) := Run(init, silence);
      var slices := StepSlices(step, emitted, silence);
      assert HandedAt(steps, silence, |steps| - 1) == slices;
      assert Run(steps, silence).1 == handed + slices;
      hide Once, EachOnce, HandedAt, Owners, Mark;
      forall p
        ensures Owners(handed, p) > 0 ==> p < emitted
        ensures Owners(slices, p) > 0 ==> p >= emitted
      {
        HandedBelow(init, silence, p);
        StepSlicesCount(step, emitted, silence, p);
      }
      OnceTogether(handed, slices, emitted);
    }
  }

  /** Voice activity without common milliseconds is handed on at most once, whatever the windows,
  the overlap regions and the pauses are. */
  lemma DisjointSpeechHandedOnce(steps: seq<Step>, silence: int)
    requires forall k :: 0 <= k < |steps| ==> Disjoint(steps[k].speech)
    ensures Once(Run(steps, silence).1)
  {
    hide Run, Once;
    forall k | 0 <= k < |steps|
      ensures Once(HandedAt(steps, silence, k))
    {
      StepOnce(steps[k], Run(steps[..k], silence).0, silence);
    }
    RunHandsOnceIff(steps, silence);
  }

  lemma StepOnce(step: Step, emitted: nat, silence: int)
    requires Disjoint(step.speech)
    ensures Once(StepSlices(step, emitted, silence))
  {
    forall p
      ensures Owners(StepSlices(step, emitted, silence), p) <= 1
    {
      StepSlicesCount(step, emitted, silence, p);
      DisjointHasOneOwner(step.speech, p);
    }
  }

  // ---- Overlap regions --------------------------------------------------------------------

  /** The region is closed within a pending interval. */
  predicate Meets(pending: TimeInterval, region: TimeInterval, step: Step, silence: int) {
    var clipped := Clamp(region, pending);
    clipped.Some? && (step.force || step.now - clipped.value.end >= silence)
  }

  /** The regions routed to the overlap path for one pending interval. */
  function RoutedFor(pending: TimeInterval, regions: seq<TimeInterval>, step: Step, silence: int): seq<TimeInterval> {
    if regions == [] then []
    else
      var last := regions[|regions| - 1];
      RoutedFor(pending, regions[..|regions| - 1], step, silence)
      + (if Meets(pending, last, step, silence) then [last] else [])
  }

  function Routed(pending: seq<TimeInterval>, step: Step, silence: int): seq<TimeInterval> {
    if pending == [] then []
    else
      Routed(pending[..|pending| - 1], step, silence)
      + RoutedFor(pending[|pending| - 1], step.overlaps, step, silence)
  }
}
