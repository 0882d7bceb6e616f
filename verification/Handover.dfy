/** Which millisecond a streaming step hands to transcription, and where the watermark stands.

A millisecond is handed on by a step exactly when an interval of speech holds it that is followed by
enough silence, the watermark has not passed it, and it lies in a stretch of at least 50 ms of that
interval free of overlap.  The watermark is the last end of an interval closed so far, in any step.
*/
module Handover {
  import opened Ownership
  import opened Timeline
  import opened Watermark

  /** The interval is followed by enough silence, or the session is being finalized. */
  predicate Closed(x: TimeInterval, step: Step, silence: int) {
    step.force || step.now - x.end >= silence
  }

  // ---- Where the watermark stands ---------------------------------------------------------

  ghost predicate EndsBy(step: Step, silence: int, mark: nat) {
    forall x :: x in step.speech && Closed(x, step, silence) ==> x.end <= mark
  }

  ghost predicate SomeEndsAt(step: Step, silence: int, mark: nat) {
    exists x :: x in step.speech && Closed(x, step, silence) && x.end == mark
  }

  lemma {:induction false} MarkIsGreatest(speech: seq<TimeInterval>, step: Step, emitted: nat, silence: int)
    ensures forall x :: x in speech && Closed(x, step, silence) ==> x.end <= Mark(speech, step, emitted, silence)
    ensures Mark(speech, step, emitted, silence) == emitted
      || exists x :: x in speech && Closed(x, step, silence) && x.end == Mark(speech, step, emitted, silence)
  {
    if speech != [] {
      var init, last := speech[..|speech| - 1], speech[|speech| - 1];
      MarkIsGreatest(init, step, emitted, silence);
      assert speech == init + [last];
      var before, mark := Mark(init, step, emitted, silence), Mark(speech, step, emitted, silence);
      if mark != emitted {
        if mark != before {
          assert last in speech && Closed(last, step, silence) && last.end == mark;
        } else {
          var x :| x in init && Closed(x, step, silence) && x.end == before;
          assert x in speech;
        }
      }
    }
  }

  ghost predicate AllEndBy(steps: seq<Step>, silence: int, mark: nat) {
    forall k :: 0 <= k < |steps| ==> EndsBy(steps[k], silence, mark)
  }

  ghost predicate OneEndsAt(steps: seq<Step>, silence: int, mark: nat) {
    exists k :: 0 <= k < |steps| && SomeEndsAt(steps[k], silence, mark)
  }

  lemma MarkNext(step: Step, emitted: nat, silence: int)
    ensures EndsBy(step, silence, Mark(step.speech, step, emitted, silence))
    ensures Mark(step.speech, step, emitted, silence) == emitted
      || SomeEndsAt(step, silence, Mark(step.speech, step, emitted, silence))
  {
    hide Mark;
    MarkIsGreatest(step.speech, step, emitted, silence);
  }

  lemma RunNext(steps: seq<Step>, silence: int)
    requires steps != []
    ensures var before, step := Run(steps[..|steps| - 1], silence), steps[|steps| - 1];
      && Run(steps, silence).0 == Mark(step.speech, step, before.0, silence)
      && Run(steps, silence).1 == before.1 + StepSlices(step, before.0, silence)
  {
    hide Mark, StepSlices;
  }

  lemma OneEndsSnoc(init: seq<Step>, last: Step, silence: int, mark: nat)
    ensures OneEndsAt(init, silence, mark) || SomeEndsAt(last, silence, mark) ==>
      OneEndsAt(init + [last], silence, mark)
  {
    hide SomeEndsAt;
    var all := init + [last];
    if OneEndsAt(init, silence, mark) {
      var k :| 0 <= k < |init| && SomeEndsAt(init[k], silence, mark);
      assert SomeEndsAt(all[k], silence, mark);
    }
    if SomeEndsAt(last, silence, mark) {
      assert SomeEndsAt(all[|init|], silence, mark);
    }
  }

  lemma AllEndSnoc(init: seq<Step>, last: Step, silence: int, before: nat, mark: nat)
    requires AllEndBy(init, silence, before) && before <= mark && EndsBy(last, silence, mark)
    ensures AllEndBy(init + [last], silence, mark)
  {
    var all := init + [last];
    forall k | 0 <= k < |all|
      ensures EndsBy(all[k], silence, mark)
    {
      assert k < |init| ==> EndsBy(init[k], silence, before);
    }
  }

  /** The watermark is the last end of an interval that was closed in some step, and 0 before the first:
  it does not depend on the order in which the ends were seen. */
  lemma {:induction false} WatermarkIsLastClosed(steps: seq<Step>, silence: int)
    ensures AllEndBy(steps, silence, Run(steps, silence).0)
    ensures Run(steps, silence).0 == 0 || OneEndsAt(steps, silence, Run(steps, silence).0)
  {
    if steps != [] {
      hide *;
      var init, step := steps[..|steps| - 1], steps[|steps| - 1];
      WatermarkIsLastClosed(init, silence);
      RunNext(steps, silence);
      MarkNext(step, Run(init, silence).0, silence);
      assert init + [step] == steps;
      AllEndSnoc(init, step, silence, Run(init, silence).0, Run(steps, silence).0);
      OneEndsSnoc(init, step, silence, Run(steps, silence).0);
    }
  }

  // ---- What a step hands on ---------------------------------------------------------------

  /** From `lo` up to `hi` there is nothing but speech of `x` behind the watermark and outside overlap. */
  ghost predicate Free(x: TimeInterval, overlaps: seq<TimeInterval>, emitted: nat, lo: int, hi: int) {
    forall q :: lo <= q < hi ==> x.Contains(q) && emitted <= q && !Covered(overlaps, q)
  }

  /** A stretch of 50 ms or more around `p` is free. */
  ghost predicate FreeAround(x: TimeInterval, overlaps: seq<TimeInterval>, emitted: nat, p: int) {
    exists lo, hi :: lo <= p < hi && hi - lo >= 50 && Free(x, overlaps, emitted, lo, hi)
  }

  /** A millisecond of a closed interval is transcribed exactly when a free stretch of 50 ms holds it. */
  lemma InNonOverlapIff(x: TimeInterval, overlaps: seq<TimeInterval>, emitted: nat, p: int)
    requires x.end > emitted
    ensures InNonOverlap([Behind(x, emitted)], overlaps, p) <==> FreeAround(x, overlaps, emitted, p)
  {
    var part := Behind(x, emitted);
    InLongStretchIff([part], overlaps, p);
    forall lo, hi
      ensures SpeechFromTo([part], overlaps, lo, hi) <==> Free(x, overlaps, emitted, lo, hi)
    {
      StretchIsFree(x, overlaps, emitted, lo, hi);
    }
    hide SpeechFromTo, Free, InNonOverlap;
  }

  lemma StretchIsFree(x: TimeInterval, overlaps: seq<TimeInterval>, emitted: nat, lo: int, hi: int)
    requires x.end > emitted
    ensures SpeechFromTo([Behind(x, emitted)], overlaps, lo, hi) <==> Free(x, overlaps, emitted, lo, hi)
  {
    var part := Behind(x, emitted);
    forall q
      ensures Covered([part], q) <==> x.Contains(q) && emitted <= q
    {
      CoveredOne(part, q);
    }
    hide Covered;
    if SpeechFromTo([part], overlaps, lo, hi) {
      forall q | lo <= q < hi
        ensures x.Contains(q) && emitted <= q && !Covered(overlaps, q)
      {
        assert Covered([part], q);
      }
    }
    if Free(x, overlaps, emitted, lo, hi) {
      forall q | lo <= q < hi
        ensures Covered([part], q) && !Covered(overlaps, q)
      {
        assert x.Contains(q);
      }
    }
  }

  /** The step hands on `p` as part of `x`. */
  ghost predicate HandsOn(x: TimeInterval, step: Step, emitted: nat, silence: int, p: int) {
    Closed(x, step, silence) && FreeAround(x, step.overlaps, emitted, p)
  }

  lemma FreeIsBehind(x: TimeInterval, overlaps: seq<TimeInterval>, emitted: nat, p: int)
    requires FreeAround(x, overlaps, emitted, p)
    ensures x.Contains(p) && emitted <= p < x.end
  {
  }

  ghost predicate SomeHandsOn(speech: seq<TimeInterval>, step: Step, emitted: nat, silence: int, p: int) {
    exists x :: x in speech && HandsOn(x, step, emitted, silence, p)
  }

  lemma SomeHandsOnSnoc(init: seq<TimeInterval>, last: TimeInterval, step: Step, emitted: nat, silence: int, p: int)
    ensures SomeHandsOn(init + [last], step, emitted, silence, p)
       <==> SomeHandsOn(init, step, emitted, silence, p) || HandsOn(last, step, emitted, silence, p)
  {
    hide HandsOn;
    assert last in init + [last] && forall x :: x in init ==> x in init + [last];
  }

  lemma PendingSnoc(init: seq<TimeInterval>, last: TimeInterval, step: Step, emitted: nat, silence: int)
    ensures Slices(Pending(init + [last], step, emitted, silence), step.overlaps)
         == Slices(Pending(init, step, emitted, silence), step.overlaps)
            + if last.end > emitted && Closed(last, step, silence) then
                NonOverlap([Behind(last, emitted)], step.overlaps)
              else []
  {
    assert (init + [last])[..|init|] == init;
    hide Slices;
    var before := Pending(init, step, emitted, silence);
    if last.end > emitted && Closed(last, step, silence) {
      SlicesSnoc(before, Behind(last, emitted), step.overlaps);
    } else {
      assert before + [] == before;
    }
  }

  lemma HandsOnCount(last: TimeInterval, step: Step, emitted: nat, silence: int, p: int)
    ensures Owners(if last.end > emitted && Closed(last, step, silence) then
                     NonOverlap([Behind(last, emitted)], step.overlaps)
                   else [], p)
         == if HandsOn(last, step, emitted, silence, p) then 1 else 0
  {
    if FreeAround(last, step.overlaps, emitted, p) {
      FreeIsBehind(last, step.overlaps, emitted, p);
    }
    hide FreeAround, NonOverlap, InNonOverlap, Behind;
    if last.end > emitted {
      InNonOverlapIff(last, step.overlaps, emitted, p);
      NonOverlapOwner([Behind(last, emitted)], step.overlaps, p);
    }
  }

  lemma NothingHanded(step: Step, emitted: nat, silence: int, p: int)
    ensures Owners(Slices(Pending([], step, emitted, silence), step.overlaps), p) == 0
    ensures !SomeHandsOn([], step, emitted, silence, p)
  {
    assert Pending([], step, emitted, silence) == [];
    assert Slices([], step.overlaps) == [];
  }

  /** A step hands a millisecond on exactly when a free stretch of some closed interval holds it. */
  lemma {:induction false} HandedIff(speech: seq<TimeInterval>, step: Step, emitted: nat, silence: int, p: int)
    ensures Owners(Slices(Pending(speech, step, emitted, silence), step.overlaps), p) > 0
       <==> SomeHandsOn(speech, step, emitted, silence, p)
  {
    hide *;
    if speech == [] {
      NothingHanded(step, emitted, silence, p);
    } else {
      var init, last := speech[..|speech| - 1], speech[|speech| - 1];
      HandedIff(init, step, emitted, silence, p);
      PendingSnoc(init, last, step, emitted, silence);
      HandsOnCount(last, step, emitted, silence, p);
      OwnersConcat(Slices(Pending(init, step, emitted, silence), step.overlaps),
                   if last.end > emitted && Closed(last, step, silence) then
                     NonOverlap([Behind(last, emitted)], step.overlaps)
                   else [], p);
      SomeHandsOnSnoc(init, last, step, emitted, silence, p);
      assert init + [last] == speech;
    }
  }

  lemma StepHandsIff(step: Step, emitted: nat, silence: int, p: int)
    ensures Owners(StepSlices(step, emitted, silence), p) > 0
       <==> SomeHandsOn(step.speech, step, emitted, silence, p)
  {
    HandedIff(step.speech, step, emitted, silence, p);
    hide Owners, Slices, Pending, SomeHandsOn;
  }

  // ---- What a run hands on ----------------------------------------------------------------

  ghost predicate HandedBy(steps: seq<Step>, silence: int, k: nat, p: int) {
    k < |steps| && SomeHandsOn(steps[k].speech, steps[k], Run(steps[..k], silence).0, silence, p)
  }

  lemma HandedBySnoc(steps: seq<Step>, silence: int, p: int)
    requires steps != []
    ensures var init, step := steps[..|steps| - 1], steps[|steps| - 1];
      (exists k: nat :: HandedBy(steps, silence, k, p)) <==>
        || (exists k: nat :: HandedBy(init, silence, k, p))
        || SomeHandsOn(step.speech, step, Run(init, silence).0, silence, p)
  {
    hide SomeHandsOn, Run;
    var init, last := steps[..|steps| - 1], |steps| - 1;
    forall k: nat
      ensures HandedBy(steps, silence, k, p)
         <==> HandedBy(init, silence, k, p) || (k == last && HandedBy(steps, silence, last, p))
    {
      assert k < last ==> init[..k] == steps[..k];
    }
    assert HandedBy(steps, silence, last, p)
      <==> SomeHandsOn(steps[last].speech, steps[last], Run(init, silence).0, silence, p);
  }

  /** A millisecond is handed to transcription in a run exactly when in some step a closed interval of
  speech holds a free stretch of at least 50 ms with it, behind the watermark of that step. */
  lemma {:induction false} RunHandsIff(steps: seq<Step>, silence: int, p: int)
    ensures Owners(Run(steps, silence).1, p) > 0 <==> exists k: nat :: HandedBy(steps, silence, k, p)
  {
    if steps == [] {
    } else {
      hide *;
      var init, step := steps[..|steps| - 1], steps[|steps| - 1];
      RunHandsIff(init, silence, p);
      RunNext(steps, silence);
      StepHandsIff(step, Run(init, silence).0, silence, p);
      OwnersConcat(Run(init, silence).1, StepSlices(step, Run(init, silence).0, silence), p);
      HandedBySnoc(steps, silence, p);
    }
  }
}
