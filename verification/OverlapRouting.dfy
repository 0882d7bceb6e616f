/** How often a streaming session decodes overlap.

A region is routed to the overlap path as a whole, once for every closed interval of speech it meets
behind the watermark, and again in every later step in which it still meets one: unlike speech outside
the regions it is not cut at the watermark.
*/
module OverlapRouting {
  import opened Ownership
  import opened Timeline
  import opened Watermark

  /** Everything one step routes. */
  function StepRouted(speech: seq<TimeInterval>, step: Step, emitted: nat, silence: int): seq<TimeInterval> {
    Routed(Pending(speech, step, emitted, silence), step, silence)
  }

  function RoutedAt(steps: seq<Step>, silence: int, k: nat): seq<TimeInterval>
    requires k < |steps|
  {
    StepRouted(steps[k].speech, steps[k], Run(steps[..k], silence).0, silence)
  }

  /** Everything the first `n` steps route. */
  function RoutedUpTo(steps: seq<Step>, silence: int, n: nat): seq<TimeInterval>
    requires n <= |steps|
  {
    if n == 0 then [] else RoutedUpTo(steps, silence, n - 1) + RoutedAt(steps, silence, n - 1)
  }

  function AllRouted(steps: seq<Step>, silence: int): seq<TimeInterval> {
    RoutedUpTo(steps, silence, |steps|)
  }

  /** The interval is closed and the region meets it behind the watermark. */
  predicate Routes(x: TimeInterval, region: TimeInterval, step: Step, emitted: nat, silence: int) {
    Ready(x, step, emitted, silence) && region.Intersects(Behind(x, emitted))
  }

  /** The further test whether the region is closed never fails: the interval it is clamped to is. */
  lemma MeetsIffIntersects(x: TimeInterval, region: TimeInterval, step: Step, emitted: nat, silence: int)
    requires Ready(x, step, emitted, silence)
    ensures Meets(Behind(x, emitted), region, step, silence) <==> region.Intersects(Behind(x, emitted))
  {
  }

  // ---- Counting ---------------------------------------------------------------------------

  /** How many of the intervals are hits. */
  function Count(s: seq<TimeInterval>, hits: TimeInterval -> bool): nat {
    if s == [] then 0 else Count(s[..|s| - 1], hits) + (if hits(s[|s| - 1]) then 1 else 0)
  }

  lemma {:induction false} CountConcat(a: seq<TimeInterval>, b: seq<TimeInterval>, hits: TimeInterval -> bool)
    ensures Count(a + b, hits) == Count(a, hits) + Count(b, hits)
  {
    if b == [] {
      assert a + b == a;
    } else {
      var all := a + b;
      assert all[..|all| - 1] == a + b[..|b| - 1];
      CountConcat(a, b[..|b| - 1], hits);
    }
  }

  ghost predicate AtMostOne(s: seq<TimeInterval>, hits: TimeInterval -> bool) {
    forall i, j :: 0 <= i < j < |s| ==> !(hits(s[i]) && hits(s[j]))
  }

  /** Some region that is a hit is routed for `x`. */
  ghost predicate Hit(x: TimeInterval, regions: seq<TimeInterval>, step: Step, emitted: nat, silence: int,
                      hits: TimeInterval -> bool)
  {
    exists r :: r in regions && hits(r) && Routes(x, r, step, emitted, silence)
  }

  lemma {:induction false} NoHitNoCount(x: TimeInterval, regions: seq<TimeInterval>, step: Step, emitted: nat,
                                        silence: int, hits: TimeInterval -> bool)
    requires Ready(x, step, emitted, silence) && AtMostOne(regions, hits)
    ensures Count(RoutedFor(Behind(x, emitted), regions, step, silence), hits)
         == if Hit(x, regions, step, emitted, silence, hits) then 1 else 0
  {
    if regions != [] {
      var init, last := regions[..|regions| - 1], regions[|regions| - 1];
      NoHitNoCount(x, init, step, emitted, silence, hits);
      MeetsIffIntersects(x, last, step, emitted, silence);
      var before := RoutedFor(Behind(x, emitted), init, step, silence);
      HitSnoc(x, init, last, step, emitted, silence, hits);
      assert regions == init + [last];
      assert before + [] == before;
      CountConcat(before, [last], hits);
      assert Count([last], hits) == if hits(last) then 1 else 0;
      hide Meets, Routes, Count, Ready;
    }
  }

  lemma HitSnoc(x: TimeInterval, init: seq<TimeInterval>, last: TimeInterval, step: Step, emitted: nat,
                silence: int, hits: TimeInterval -> bool)
    requires AtMostOne(init + [last], hits)
    ensures AtMostOne(init, hits)
    ensures Hit(x, init + [last], step, emitted, silence, hits) <==>
      Hit(x, init, step, emitted, silence, hits) || (hits(last) && Routes(x, last, step, emitted, silence))
    ensures hits(last) ==> !Hit(x, init, step, emitted, silence, hits)
  {
    hide Routes;
    var all := init + [last];
    assert forall i :: 0 <= i < |init| ==> all[i] == init[i];
    assert all[|init|] == last;
    assert last in all && forall r :: r in init ==> r in all;
  }

  // ---- One step ---------------------------------------------------------------------------

  ghost predicate HitAt(speech: seq<TimeInterval>, step: Step, emitted: nat, silence: int,
                        hits: TimeInterval -> bool, i: nat)
  {
    i < |speech| && Hit(speech[i], step.overlaps, step, emitted, silence, hits)
  }

  ghost predicate OneHit(speech: seq<TimeInterval>, step: Step, emitted: nat, silence: int,
                         hits: TimeInterval -> bool)
  {
    exists i: nat :: HitAt(speech, step, emitted, silence, hits, i)
  }

  ghost predicate TwoHits(speech: seq<TimeInterval>, step: Step, emitted: nat, silence: int,
                          hits: TimeInterval -> bool)
  {
    exists i: nat, j: nat ::
      i != j && HitAt(speech, step, emitted, silence, hits, i) && HitAt(speech, step, emitted, silence, hits, j)
  }

  lemma StepRoutedSnoc(init: seq<TimeInterval>, last: TimeInterval, step: Step, emitted: nat, silence: int)
    ensures StepRouted(init + [last], step, emitted, silence)
         == StepRouted(init, step, emitted, silence)
            + (if Ready(last, step, emitted, silence) then
                RoutedFor(Behind(last, emitted), step.overlaps, step, silence)
               else [])
  {
    assert (init + [last])[..|init|] == init;
    var before := Pending(init, step, emitted, silence);
    if Ready(last, step, emitted, silence) {
      assert (before + [Behind(last, emitted)])[..|before|] == before;
    } else {
      assert before + [] == before;
    }
    hide RoutedFor;
  }

  lemma StepCountSnoc(init: seq<TimeInterval>, last: TimeInterval, step: Step, emitted: nat, silence: int,
                      hits: TimeInterval -> bool)
    requires AtMostOne(step.overlaps, hits)
    ensures Count(StepRouted(init + [last], step, emitted, silence), hits)
         == Count(StepRouted(init, step, emitted, silence), hits)
            + (if Hit(last, step.overlaps, step, emitted, silence, hits) then 1 else 0)
  {
    hide *;
    StepRoutedSnoc(init, last, step, emitted, silence);
    HitIsReady(last, step, emitted, silence, hits);
    if Ready(last, step, emitted, silence) {
      BehindIs(last, step, emitted, silence);
      NoHitNoCount(last, step.overlaps, step, emitted, silence, hits);
      CountConcat(StepRouted(init, step, emitted, silence),
                  RoutedFor(Behind(last, emitted), step.overlaps, step, silence), hits);
    } else {
      assert StepRouted(init, step, emitted, silence) + [] == StepRouted(init, step, emitted, silence);
    }
  }

  lemma HitIsReady(x: TimeInterval, step: Step, emitted: nat, silence: int, hits: TimeInterval -> bool)
    ensures Hit(x, step.overlaps, step, emitted, silence, hits) ==> Ready(x, step, emitted, silence)
  {
  }

  lemma BehindIs(x: TimeInterval, step: Step, emitted: nat, silence: int)
    requires Ready(x, step, emitted, silence)
    ensures x.end > emitted
  {
  }

  lemma HitsSnoc(init: seq<TimeInterval>, last: TimeInterval, step: Step, emitted: nat, silence: int,
                 hits: TimeInterval -> bool)
    ensures var hit := Hit(last, step.overlaps, step, emitted, silence, hits);
      && (OneHit(init + [last], step, emitted, silence, hits) <==> OneHit(init, step, emitted, silence, hits) || hit)
      && (TwoHits(init + [last], step, emitted, silence, hits) <==>
            TwoHits(init, step, emitted, silence, hits) || (OneHit(init, step, emitted, silence, hits) && hit))
  {
    hide Hit;
    var all := init + [last];
    assert forall i :: 0 <= i < |init| ==> all[i] == init[i];
    assert all[|init|] == last;
    forall i: nat
      ensures HitAt(all, step, emitted, silence, hits, i) <==>
        HitAt(init, step, emitted, silence, hits, i)
        || (i == |init| && Hit(last, step.overlaps, step, emitted, silence, hits))
      ensures HitAt(init, step, emitted, silence, hits, i) ==> i < |init|
    {
    }
    hide HitAt;
    if Hit(last, step.overlaps, step, emitted, silence, hits) {
      assert HitAt(all, step, emitted, silence, hits, |init|);
      if OneHit(init, step, emitted, silence, hits) {
        var i: nat :| HitAt(init, step, emitted, silence, hits, i);
        assert i != |init| && HitAt(all, step, emitted, silence, hits, i);
      }
    }
    if OneHit(all, step, emitted, silence, hits) {
      var i: nat :| HitAt(all, step, emitted, silence, hits, i);
      assert HitAt(init, step, emitted, silence, hits, i) || i == |init|;
    }
    if TwoHits(all, step, emitted, silence, hits) {
      var i: nat, j: nat :| i != j && HitAt(all, step, emitted, silence, hits, i)
        && HitAt(all, step, emitted, silence, hits, j);
      assert HitAt(init, step, emitted, silence, hits, i) || HitAt(init, step, emitted, silence, hits, j);
    }
  }

  lemma {:induction false} StepCount(speech: seq<TimeInterval>, step: Step, emitted: nat, silence: int,
                                     hits: TimeInterval -> bool)
    requires AtMostOne(step.overlaps, hits)
    ensures Count(StepRouted(speech, step, emitted, silence), hits) >= 1
       <==> OneHit(speech, step, emitted, silence, hits)
    ensures Count(StepRouted(speech, step, emitted, silence), hits) >= 2
       <==> TwoHits(speech, step, emitted, silence, hits)
  {
    if speech != [] {
      hide *;
      var init, last := speech[..|speech| - 1], speech[|speech| - 1];
      StepCount(init, step, emitted, silence, hits);
      StepCountSnoc(init, last, step, emitted, silence, hits);
      HitsSnoc(init, last, step, emitted, silence, hits);
      assert init + [last] == speech;
    }
  }

  // ---- Whole runs -------------------------------------------------------------------------

  /** In step `k` a region that is a hit is routed for the `i`-th interval of speech. */
  ghost predicate HitIn(steps: seq<Step>, silence: int, hits: TimeInterval -> bool, k: nat, i: nat) {
    && k < |steps|
    && HitAt(steps[k].speech, steps[k], Run(steps[..k], silence).0, silence, hits, i)
  }

  ghost predicate HitBefore(steps: seq<Step>, silence: int, hits: TimeInterval -> bool, n: nat) {
    exists k: nat, i: nat :: k < n && HitIn(steps, silence, hits, k, i)
  }

  ghost predicate TwiceBefore(steps: seq<Step>, silence: int, hits: TimeInterval -> bool, n: nat) {
    exists k: nat, i: nat, l: nat, j: nat ::
      k < n && l < n && (k, i) != (l, j) && HitIn(steps, silence, hits, k, i) && HitIn(steps, silence, hits, l, j)
  }

  lemma BeforeNext(steps: seq<Step>, silence: int, hits: TimeInterval -> bool, n: nat)
    requires n < |steps|
    ensures var speech, step, emitted := steps[n].speech, steps[n], Run(steps[..n], silence).0;
      && (HitBefore(steps, silence, hits, n + 1) <==>
            HitBefore(steps, silence, hits, n) || OneHit(speech, step, emitted, silence, hits))
      && (TwiceBefore(steps, silence, hits, n + 1) <==>
            || TwiceBefore(steps, silence, hits, n)
            || TwoHits(speech, step, emitted, silence, hits)
            || (HitBefore(steps, silence, hits, n) && OneHit(speech, step, emitted, silence, hits)))
  {
    hide HitAt, Run;
    var speech, step, emitted := steps[n].speech, steps[n], Run(steps[..n], silence).0;
    forall i: nat
      ensures HitIn(steps, silence, hits, n, i) <==> HitAt(speech, step, emitted, silence, hits, i)
    {
    }
    hide HitIn;
    if TwoHits(speech, step, emitted, silence, hits) {
      var i: nat, j: nat :|
        i != j && HitAt(speech, step, emitted, silence, hits, i) && HitAt(speech, step, emitted, silence, hits, j);
      assert (n, i) != (n, j) && HitIn(steps, silence, hits, n, i) && HitIn(steps, silence, hits, n, j);
    }
    if HitBefore(steps, silence, hits, n) && OneHit(speech, step, emitted, silence, hits) {
      var k: nat, i: nat :| k < n && HitIn(steps, silence, hits, k, i);
      var j: nat :| HitAt(speech, step, emitted, silence, hits, j);
      assert (k, i) != (n, j) && HitIn(steps, silence, hits, n, j);
    }
  }

  lemma {:induction false} RunCount(steps: seq<Step>, silence: int, hits: TimeInterval -> bool, n: nat)
    requires n <= |steps| && forall k :: 0 <= k < |steps| ==> AtMostOne(steps[k].overlaps, hits)
    ensures Count(RoutedUpTo(steps, silence, n), hits) >= 1 <==> HitBefore(steps, silence, hits, n)
    ensures Count(RoutedUpTo(steps, silence, n), hits) >= 2 <==> TwiceBefore(steps, silence, hits, n)
  {
    if n > 0 {
      assert RoutedUpTo(steps, silence, n) == RoutedUpTo(steps, silence, n - 1) + RoutedAt(steps, silence, n - 1);
      hide *;
      RunCount(steps, silence, hits, n - 1);
      RunCountNext(steps, silence, hits, n - 1);
      BeforeNext(steps, silence, hits, n - 1);
    }
  }

  lemma RunCountNext(steps: seq<Step>, silence: int, hits: TimeInterval -> bool, n: nat)
    requires n < |steps| && AtMostOne(steps[n].overlaps, hits)
    ensures var speech, step, emitted := steps[n].speech, steps[n], Run(steps[..n], silence).0;
      && Count(RoutedUpTo(steps, silence, n) + RoutedAt(steps, silence, n), hits)
         == Count(RoutedUpTo(steps, silence, n), hits) + Count(RoutedAt(steps, silence, n), hits)
      && (Count(RoutedAt(steps, silence, n), hits) >= 1 <==> OneHit(speech, step, emitted, silence, hits))
      && (Count(RoutedAt(steps, silence, n), hits) >= 2 <==> TwoHits(speech, step, emitted, silence, hits))
  {
    CountConcat(RoutedUpTo(steps, silence, n), RoutedAt(steps, silence, n), hits);
    hide Run, Count, OneHit, TwoHits, StepRouted, RoutedUpTo, AtMostOne;
    StepCount(steps[n].speech, steps[n], Run(steps[..n], silence).0, silence, hits);
  }

  /** One routing: the step, the interval of speech it is for, and the region. */
  datatype Routing = Routing(step: nat, spoken: nat, region: TimeInterval)

  ghost predicate Happens(steps: seq<Step>, silence: int, a: Routing) {
    && a.step < |steps| && a.spoken < |steps[a.step].speech|
    && a.region in steps[a.step].overlaps
    && Routes(steps[a.step].speech[a.spoken], a.region, steps[a.step], Run(steps[..a.step], silence).0, silence)
  }

  predicate SamePlace(a: Routing, b: Routing) {
    a.step == b.step && a.spoken == b.spoken
  }

  lemma HitMeans(steps: seq<Step>, silence: int, hits: TimeInterval -> bool, k: nat, i: nat)
    ensures HitIn(steps, silence, hits, k, i) <==>
      exists r: TimeInterval :: Happens(steps, silence, Routing(k, i, r)) && hits(r)
  {
    hide Routes, Run;
    if HitIn(steps, silence, hits, k, i) {
      var r :| r in steps[k].overlaps && hits(r)
        && Routes(steps[k].speech[i], r, steps[k], Run(steps[..k], silence).0, silence);
      assert Happens(steps, silence, Routing(k, i, r));
    }
  }

  function Is(region: TimeInterval): TimeInterval -> bool {
    (x: TimeInterval) => x == region
  }

  function Holds(p: int): TimeInterval -> bool {
    (x: TimeInterval) => x.Contains(p)
  }

  lemma {:induction false} CountIs(s: seq<TimeInterval>, region: TimeInterval)
    ensures Count(s, Is(region)) == multiset(s)[region]
  {
    if s != [] {
      CountIs(s[..|s| - 1], region);
      assert s == s[..|s| - 1] + [s[|s| - 1]];
    }
  }

  lemma {:induction false} CountHolds(s: seq<TimeInterval>, p: int)
    ensures Count(s, Holds(p)) == Owners(s, p)
  {
    if s != [] {
      CountHolds(s[..|s| - 1], p);
      OwnersSnoc(s[..|s| - 1], s[|s| - 1], p);
      assert s == s[..|s| - 1] + [s[|s| - 1]];
    }
  }

  lemma SeparatedAtMostOne(s: seq<TimeInterval>)
    requires Separated(s, 0)
    ensures forall region :: AtMostOne(s, Is(region))
    ensures forall p :: AtMostOne(s, Holds(p))
  {
  }

  ghost predicate MergedOverlaps(steps: seq<Step>) {
    forall k :: 0 <= k < |steps| ==> Separated(steps[k].overlaps, 0)
  }

  /** At most one routing is of this region. */
  ghost predicate RoutedOnce(steps: seq<Step>, silence: int, region: TimeInterval) {
    forall a: Routing, b: Routing ::
      Happens(steps, silence, a) && Happens(steps, silence, b) && a.region == b.region == region ==> SamePlace(a, b)
  }

  /** No two routings are of regions with a common millisecond. */
  ghost predicate RoutedApart(steps: seq<Step>, silence: int) {
    forall a: Routing, b: Routing ::
      Happens(steps, silence, a) && Happens(steps, silence, b) && !SamePlace(a, b) ==> !a.region.Intersects(b.region)
  }

  /** Two routings are of regions that are hits. */
  ghost predicate TwoRoutings(steps: seq<Step>, silence: int, hits: TimeInterval -> bool) {
    exists a: Routing, b: Routing ::
      && Happens(steps, silence, a) && Happens(steps, silence, b) && !SamePlace(a, b)
      && hits(a.region) && hits(b.region)
  }

  lemma TwiceMeans(steps: seq<Step>, silence: int, hits: TimeInterval -> bool)
    ensures TwiceBefore(steps, silence, hits, |steps|) <==> TwoRoutings(steps, silence, hits)
  {
    hide *;
    if TwiceBefore(steps, silence, hits, |steps|) {
      TwiceHappens(steps, silence, hits);
    }
    if TwoRoutings(steps, silence, hits) {
      HappensTwice(steps, silence, hits);
    }
  }

  lemma TwiceHappens(steps: seq<Step>, silence: int, hits: TimeInterval -> bool)
    requires TwiceBefore(steps, silence, hits, |steps|)
    ensures TwoRoutings(steps, silence, hits)
  {
    hide HitIn, Happens;
    var k: nat, i: nat, l: nat, j: nat :| k < |steps| && l < |steps| && (k, i) != (l, j)
      && HitIn(steps, silence, hits, k, i) && HitIn(steps, silence, hits, l, j);
    HitMeans(steps, silence, hits, k, i);
    HitMeans(steps, silence, hits, l, j);
    var a: TimeInterval :| Happens(steps, silence, Routing(k, i, a)) && hits(a);
    var b: TimeInterval :| Happens(steps, silence, Routing(l, j, b)) && hits(b);
    assert !SamePlace(Routing(k, i, a), Routing(l, j, b));
  }

  lemma HappensTwice(steps: seq<Step>, silence: int, hits: TimeInterval -> bool)
    requires TwoRoutings(steps, silence, hits)
    ensures TwiceBefore(steps, silence, hits, |steps|)
  {
    hide HitIn, Happens;
    var a: Routing, b: Routing :| Happens(steps, silence, a) && Happens(steps, silence, b) && !SamePlace(a, b)
      && hits(a.region) && hits(b.region);
    HappensHits(steps, silence, hits, a);
    HappensHits(steps, silence, hits, b);
    assert (a.step, a.spoken) != (b.step, b.spoken);
  }

  lemma HappensHits(steps: seq<Step>, silence: int, hits: TimeInterval -> bool, a: Routing)
    requires Happens(steps, silence, a) && hits(a.region)
    ensures a.step < |steps| && HitIn(steps, silence, hits, a.step, a.spoken)
  {
    assert a == Routing(a.step, a.spoken, a.region);
    HitMeans(steps, silence, hits, a.step, a.spoken);
    hide HitIn, Routes, Run;
  }

  lemma CountedTwice(steps: seq<Step>, silence: int, hits: TimeInterval -> bool)
    requires forall k :: 0 <= k < |steps| ==> AtMostOne(steps[k].overlaps, hits)
    ensures Count(AllRouted(steps, silence), hits) >= 2 <==> TwoRoutings(steps, silence, hits)
  {
    hide Count, TwiceBefore, TwoRoutings, RoutedUpTo;
    RunCount(steps, silence, hits, |steps|);
    TwiceMeans(steps, silence, hits);
  }

  /** A region is decoded at most once in a run exactly when it meets, behind the watermark of the step,
  at most one closed interval of speech over all steps. */
  lemma RegionDecodedOnceIff(steps: seq<Step>, silence: int, region: TimeInterval)
    requires MergedOverlaps(steps)
    ensures multiset(AllRouted(steps, silence))[region] <= 1 <==> RoutedOnce(steps, silence, region)
  {
    forall k | 0 <= k < |steps|
      ensures AtMostOne(steps[k].overlaps, Is(region))
    {
      SeparatedAtMostOne(steps[k].overlaps);
    }
    CountIs(AllRouted(steps, silence), region);
    CountedTwice(steps, silence, Is(region));
    hide Count, Happens, AllRouted, SamePlace, MergedOverlaps, AtMostOne;
  }

  ghost predicate OneRouting(steps: seq<Step>, silence: int, region: TimeInterval) {
    exists a: Routing :: Happens(steps, silence, a) && a.region == region
  }

  lemma OnceMeans(steps: seq<Step>, silence: int, region: TimeInterval)
    ensures HitBefore(steps, silence, Is(region), |steps|) <==> OneRouting(steps, silence, region)
  {
    hide HitIn, Happens;
    if HitBefore(steps, silence, Is(region), |steps|) {
      var k: nat, i: nat :| k < |steps| && HitIn(steps, silence, Is(region), k, i);
      HitMeans(steps, silence, Is(region), k, i);
      var r: TimeInterval :| Happens(steps, silence, Routing(k, i, r)) && Is(region)(r);
      assert OneRouting(steps, silence, region);
    }
    if OneRouting(steps, silence, region) {
      var a: Routing :| Happens(steps, silence, a) && a.region == region;
      HappensHits(steps, silence, Is(region), a);
    }
  }

  /** A region is decoded in a run exactly when in some step it is among the regions and meets a closed
  interval of speech behind the watermark. */
  lemma RegionDecodedIff(steps: seq<Step>, silence: int, region: TimeInterval)
    requires MergedOverlaps(steps)
    ensures region in AllRouted(steps, silence) <==> OneRouting(steps, silence, region)
  {
    forall k | 0 <= k < |steps|
      ensures AtMostOne(steps[k].overlaps, Is(region))
    {
      SeparatedAtMostOne(steps[k].overlaps);
    }
    hide *;
    CountIs(AllRouted(steps, silence), region);
    RunCount(steps, silence, Is(region), |steps|);
    OnceMeans(steps, silence, region);
    AllRoutedIs(steps, silence);
  }

  lemma PointDecodedTwice(steps: seq<Step>, silence: int, p: int)
    requires MergedOverlaps(steps)
    ensures Owners(AllRouted(steps, silence), p) >= 2 <==> TwoRoutings(steps, silence, Holds(p))
  {
    forall k | 0 <= k < |steps|
      ensures AtMostOne(steps[k].overlaps, Holds(p))
    {
      SeparatedAtMostOne(steps[k].overlaps);
    }
    hide *;
    CountHolds(AllRouted(steps, silence), p);
    CountedTwice(steps, silence, Holds(p));
  }

  lemma ApartPointwise(steps: seq<Step>, silence: int)
    ensures RoutedApart(steps, silence) <==> forall p :: !TwoRoutings(steps, silence, Holds(p))
  {
    hide Happens, SamePlace;
    if !RoutedApart(steps, silence) {
      var a: Routing, b: Routing :| Happens(steps, silence, a) && Happens(steps, silence, b) && !SamePlace(a, b)
        && a.region.Intersects(b.region);
      var p := Max(a.region.start, b.region.start);
      assert Holds(p)(a.region) && Holds(p)(b.region);
      assert TwoRoutings(steps, silence, Holds(p));
    }
    if p :| TwoRoutings(steps, silence, Holds(p)) {
      var a: Routing, b: Routing :| Happens(steps, silence, a) && Happens(steps, silence, b) && !SamePlace(a, b)
        && Holds(p)(a.region) && Holds(p)(b.region);
      assert a.region.Intersects(b.region);
    }
  }

  /** Over a whole run no millisecond is decoded as overlap twice, exactly when no two routings are of
  regions with a common millisecond. */
  lemma DecodedOnceIff(steps: seq<Step>, silence: int)
    requires MergedOverlaps(steps)
    ensures Once(AllRouted(steps, silence)) <==> RoutedApart(steps, silence)
  {
    forall p
      ensures Owners(AllRouted(steps, silence), p) >= 2 <==> TwoRoutings(steps, silence, Holds(p))
    {
      PointDecodedTwice(steps, silence, p);
    }
    ApartPointwise(steps, silence);
    hide TwoRoutings, RoutedApart, AllRouted, Owners, MergedOverlaps;
  }

  // ---- Two ways to decode a region twice --------------------------------------------------

  const SILENCE := 500

  function Region(): TimeInterval {
    Interval(500, 1500)
  }

  /** The window up to the first pause. */
  function Early(): Step {
    Step([Interval(0, 1000)], [Region()], 1500, false)
  }

  /** The window up to the second pause; the region lies across the first. */
  function Late(): Step {
    Step([Interval(0, 1000), Interval(1200, 2000)], [Region()], 2500, false)
  }

  function Alone(x: TimeInterval, step: Step, emitted: nat, region: TimeInterval): seq<TimeInterval> {
    if Routes(x, region, step, emitted, SILENCE) then [region] else []
  }

  lemma SpeechRouted(init: seq<TimeInterval>, x: TimeInterval, step: Step, emitted: nat, region: TimeInterval)
    requires step.overlaps == [region]
    ensures StepRouted(init + [x], step, emitted, SILENCE)
         == StepRouted(init, step, emitted, SILENCE) + Alone(x, step, emitted, region)
    ensures StepRouted([], step, emitted, SILENCE) == []
  {
    StepRoutedSnoc(init, x, step, emitted, SILENCE);
    hide StepRouted, Meets;
    assert step.overlaps[..0] == [] && step.overlaps[0] == region;
    if Ready(x, step, emitted, SILENCE) {
      MeetsIffIntersects(x, region, step, emitted, SILENCE);
    }
    assert StepRouted([], step, emitted, SILENCE) == [] by {
      NothingSaid(step, emitted);
    }
  }

  lemma NothingSaid(step: Step, emitted: nat)
    ensures StepRouted([], step, emitted, SILENCE) == []
  {
  }

  lemma EarlyRouted()
    ensures Run([], SILENCE).0 == 0 && Run([Early()], SILENCE).0 == 1000
    ensures StepRouted(Early().speech, Early(), 0, SILENCE) == [Region()]
  {
    var step, x: TimeInterval := Early(), Interval(0, 1000);
    assert [step][..0] == [] && step.speech[..0] == [];
    assert Alone(x, step, 0, Region()) == [Region()];
    assert step.speech == [x] && [] + [x] == [x];
    SpeechRouted([], x, step, 0, Region());
    hide StepRouted, Alone;
  }

  lemma LateRouted(emitted: nat)
    requires emitted == 0 || emitted == 1000
    ensures StepRouted(Late().speech, Late(), emitted, SILENCE)
         == if emitted == 0 then [Region(), Region()] else [Region()]
  {
    var step, x: TimeInterval, y: TimeInterval := Late(), Interval(0, 1000), Interval(1200, 2000);
    LateAlone(emitted);
    assert step.speech == [x, y] && step.overlaps == [Region()];
    hide *;
    assert [] + [x] == [x] && [x] + [y] == [x, y];
    SpeechRouted([], x, step, emitted, Region());
    SpeechRouted([x], y, step, emitted, Region());
    assert [Region()] + [Region()] == [Region(), Region()];
  }

  lemma LateAlone(emitted: nat)
    requires emitted == 0 || emitted == 1000
    ensures Alone(Interval(0, 1000), Late(), emitted, Region()) == if emitted == 0 then [Region()] else []
    ensures Alone(Interval(1200, 2000), Late(), emitted, Region()) == [Region()]
  {
  }

  lemma RoutedNext(steps: seq<Step>, silence: int, n: nat)
    requires n < |steps|
    ensures RoutedUpTo(steps, silence, n + 1) == RoutedUpTo(steps, silence, n) + RoutedAt(steps, silence, n)
    ensures RoutedUpTo(steps, silence, 0) == []
  {
    hide RoutedAt;
  }

  lemma RoutedAtIs(steps: seq<Step>, silence: int, k: nat, before: seq<Step>)
    requires k < |steps| && before == steps[..k]
    ensures RoutedAt(steps, silence, k) == StepRouted(steps[k].speech, steps[k], Run(before, silence).0, silence)
  {
    hide StepRouted, Run;
  }

  lemma AllRoutedIs(steps: seq<Step>, silence: int)
    ensures AllRouted(steps, silence) == RoutedUpTo(steps, silence, |steps|)
  {
    hide RoutedUpTo;
  }

  lemma OneStepRouted(step: Step, silence: int)
    ensures AllRouted([step], silence) == StepRouted(step.speech, step, Run([], silence).0, silence)
  {
    hide *;
    var steps := [step];
    AllRoutedIs(steps, silence);
    RoutedNext(steps, silence, 0);
    RoutedAtIs(steps, silence, 0, []);
  }

  lemma TwoStepsRouted(first: Step, second: Step, silence: int)
    ensures AllRouted([first, second], silence)
         == StepRouted(first.speech, first, Run([], silence).0, silence)
            + StepRouted(second.speech, second, Run([first], silence).0, silence)
  {
    hide *;
    var steps := [first, second];
    AllRoutedIs(steps, silence);
    RoutedNext(steps, silence, 0);
    RoutedNext(steps, silence, 1);
    RoutedAtIs(steps, silence, 0, []);
    RoutedAtIs(steps, silence, 1, [first]);
  }

  /** A region across a pause is decoded twice: in one step when both sides are closed then, and in two
  steps when the first side is closed earlier. */
  lemma RegionDecodedTwice()
    ensures AllRouted([Late()], SILENCE) == [Region(), Region()]
    ensures AllRouted([Early(), Late()], SILENCE) == [Region(), Region()]
  {
    hide *;
    EarlyRouted();
    LateRouted(0);
    LateRouted(1000);
    OneStepRouted(Late(), SILENCE);
    TwoStepsRouted(Early(), Late(), SILENCE);
    assert [Region()] + [Region()] == [Region(), Region()];
  }

  // ---- A case in which nothing is decoded twice -------------------------------------------

  /** Every region lies inside one interval of speech and does not straddle the watermark. */
  ghost predicate InsideSpeech(step: Step, emitted: nat) {
    && Disjoint(step.speech)
    && forall r :: r in step.overlaps ==>
         && (exists i :: 0 <= i < |step.speech| && Inside(r, step.speech[i]))
         && !(r.start < emitted < r.end)
  }

  predicate Inside(r: TimeInterval, x: TimeInterval) {
    x.start <= r.start && r.end <= x.end
  }

  /** The region is routed for the interval it lies in, from the watermark on and up to the next one. */
  lemma InsideRouted(step: Step, emitted: nat, silence: int, i: nat, r: TimeInterval)
    requires InsideSpeech(step, emitted) && r in step.overlaps && i < |step.speech|
    requires Routes(step.speech[i], r, step, emitted, silence)
    ensures Inside(r, step.speech[i]) && emitted <= r.start && r.end <= Mark(step.speech, step, emitted, silence)
  {
    var j :| 0 <= j < |step.speech| && Inside(r, step.speech[j]);
    MarkPastReady(step.speech, step, emitted, silence, i);
  }

  lemma {:induction false} MarkPastReady(speech: seq<TimeInterval>, step: Step, emitted: nat, silence: int, i: nat)
    requires i < |speech| && Ready(speech[i], step, emitted, silence)
    ensures speech[i].end <= Mark(speech, step, emitted, silence)
  {
    if i < |speech| - 1 {
      MarkPastReady(speech[..|speech| - 1], step, emitted, silence, i);
    }
  }

  lemma MarkAfter(steps: seq<Step>, silence: int, k: nat, l: nat)
    requires k < l <= |steps|
    ensures Mark(steps[k].speech, steps[k], Run(steps[..k], silence).0, silence) <= Run(steps[..l], silence).0
  {
    assert steps[..k + 1][..k] == steps[..k] && steps[..l] == steps[..k + 1] + steps[k + 1..l];
    WatermarkMonotone(steps[..k + 1], steps[k + 1..l], silence);
    hide Mark, StepSlices;
  }

  ghost predicate AllInside(steps: seq<Step>, silence: int) {
    forall k :: 0 <= k < |steps| ==> InsideSpeech(steps[k], Run(steps[..k], silence).0)
  }

  lemma RoutedInside(steps: seq<Step>, silence: int, a: Routing)
    requires AllInside(steps, silence) && Happens(steps, silence, a)
    ensures Inside(a.region, steps[a.step].speech[a.spoken]) && Run(steps[..a.step], silence).0 <= a.region.start
    ensures a.region.end <= Mark(steps[a.step].speech, steps[a.step], Run(steps[..a.step], silence).0, silence)
  {
    hide InsideSpeech, Routes, Run, Mark;
    InsideRouted(steps[a.step], Run(steps[..a.step], silence).0, silence, a.spoken, a.region);
  }

  lemma ApartAt(steps: seq<Step>, silence: int, a: Routing, b: Routing)
    requires AllInside(steps, silence) && Happens(steps, silence, a) && Happens(steps, silence, b)
    requires a.step <= b.step && !SamePlace(a, b)
    ensures !a.region.Intersects(b.region)
  {
    RoutedInside(steps, silence, a);
    RoutedInside(steps, silence, b);
    if a.step < b.step {
      MarkAfter(steps, silence, a.step, b.step);
    }
    hide Run, Mark, Routes;
    assert InsideSpeech(steps[a.step], Run(steps[..a.step], silence).0);
  }

  /** Regions that stay inside one interval of speech, on one side of the watermark, are decoded once. */
  lemma InsideSpeechDecodedOnce(steps: seq<Step>, silence: int)
    requires MergedOverlaps(steps) && AllInside(steps, silence)
    ensures Once(AllRouted(steps, silence))
  {
    DecodedOnceIff(steps, silence);
    hide Once, AllRouted, Happens, AllInside, MergedOverlaps;
    forall a: Routing, b: Routing | Happens(steps, silence, a) && Happens(steps, silence, b) && !SamePlace(a, b)
      ensures !a.region.Intersects(b.region)
    {
      if a.step <= b.step {
        ApartAt(steps, silence, a, b);
      } else {
        ApartAt(steps, silence, b, a);
      }
    }
  }
}
