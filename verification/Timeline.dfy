/** Interval arithmetic on the session timeline, in integer milliseconds.

A `TimeInterval` is half-open.  `Merge` is the canonical form of a set of intervals: sorted,
separated by more than the merge gap, and covering exactly the union of the inputs plus the gaps
that the merge rule closes.  Two separated lists that cover the same points are the same list, so
everything said about `Merge` and `Subtract` can be said pointwise.
*/
module Timeline {
  import opened Options
  import opened Sorting

  datatype RawInterval = Interval(start: int, end: int) {
    function Duration(): int {
      end - start
    }

    predicate Intersects(other: RawInterval) {
      start < other.end && other.start < end
    }

    /** Overlap length; 0 when the intervals are disjoint. */
    function IntersectionMs(other: RawInterval): int {
      Max(0, Min(end, other.end) - Max(start, other.start))
    }

    predicate Contains(ms: int) {
      start <= ms < end
    }
  }

  /** The values the source can build: its constructor raises on anything else. */
  type TimeInterval = i: RawInterval | 0 <= i.start < i.end witness Interval(0, 1)

  function Min(a: int, b: int): int {
    if a <= b then a else b
  }

  function Max(a: int, b: int): int {
    if a >= b then a else b
  }

  function Clamp(x: TimeInterval, bounds: TimeInterval): (r: Option<TimeInterval>)
    ensures r.Some? <==> x.Intersects(bounds)
    ensures r.Some? ==> forall p :: r.value.Contains(p) <==> x.Contains(p) && bounds.Contains(p)
  {
    var start, end := Max(x.start, bounds.start), Min(x.end, bounds.end);
    if end <= start then None else Some(Interval(start, end))
  }

  /** Grow by `context` on both sides, clamped to the bounds; never empty. */
  function Pad(x: TimeInterval, context: nat, lower: nat, upper: int): (r: TimeInterval)
    ensures lower <= x.start && x.end <= upper ==>
      r.start == Max(lower, x.start - context) && r.end == Min(upper, x.end + context)
  {
    var start := Max(lower, x.start - context);
    var end := Min(upper, x.end + context);
    Interval(start, Max(end, start + 1))
  }

  /** The overlap of two intervals is the length of what they have in common. */
  lemma IntersectionIsCommon(x: TimeInterval, y: TimeInterval)
    ensures x.IntersectionMs(y) == (if Clamp(x, y).Some? then Clamp(x, y).value.Duration() else 0)
    ensures x.IntersectionMs(y) > 0 <==> exists p :: x.Contains(p) && y.Contains(p)
  {
    if Clamp(x, y).Some? {
      var p := Clamp(x, y).value.start;
      assert x.Contains(p) && y.Contains(p);
    }
  }

  // ---- Point sets -------------------------------------------------------------------------

  ghost predicate Covered(s: seq<TimeInterval>, p: int) {
    exists x :: x in s && x.Contains(p)
  }

  /** `p` is in an interval, or in a gap of at most `gap` between two of them. */
  ghost predicate Bridged(s: seq<TimeInterval>, gap: nat, p: int) {
    || Covered(s, p)
    || exists a, b :: a in s && b in s && a.end <= p < b.start <= a.end + gap
  }

  /** Sorted, with more than `gap` between any two. */
  predicate Separated(s: seq<TimeInterval>, gap: nat) {
    forall i, j :: 0 <= i < j < |s| ==> s[i].end + gap < s[j].start
  }

  /** Sorted and disjoint: consecutive intervals may touch. */
  predicate Disjoint(s: seq<TimeInterval>) {
    forall i, j :: 0 <= i < j < |s| ==> s[i].end <= s[j].start
  }

  /** A separated list is determined by the points it covers. */
  lemma {:induction false} SeparatedUnique(a: seq<TimeInterval>, b: seq<TimeInterval>)
    requires Separated(a, 0) && Separated(b, 0)
    requires forall p :: Covered(a, p) <==> Covered(b, p)
    ensures a == b
  {
    HeadCovered(a);
    HeadCovered(b);
    if a != [] {
      SameHead(a, b);
      forall p
        ensures Covered(a[1..], p) <==> Covered(b[1..], p)
      {
        TailCover(a, p);
        TailCover(b, p);
      }
      SeparatedUnique(a[1..], b[1..]);
    }
  }

  lemma HeadCovered(a: seq<TimeInterval>)
    ensures a == [] ==> forall p :: !Covered(a, p)
    ensures a != [] ==> Covered(a, a[0].start)
  {
    if a != [] {
      assert a[0].Contains(a[0].start);
    }
  }

  lemma TailCover(a: seq<TimeInterval>, p: int)
    requires a != [] && Separated(a, 0)
    ensures Covered(a[1..], p) <==> Covered(a, p) && p > a[0].end
  {
    if Covered(a[1..], p) {
      var x :| x in a[1..] && x.Contains(p);
    }
    if Covered(a, p) && p > a[0].end {
      var x :| x in a && x.Contains(p);
      assert x in a[1..];
    }
  }

  lemma SameHead(a: seq<TimeInterval>, b: seq<TimeInterval>)
    requires Separated(a, 0) && Separated(b, 0) && a != [] && b != []
    requires forall p :: Covered(a, p) <==> Covered(b, p)
    ensures a[0] == b[0]
  {
    HeadBelow(a, b);
    HeadBelow(b, a);
  }

  lemma HeadBelow(a: seq<TimeInterval>, b: seq<TimeInterval>)
    requires Separated(a, 0) && Separated(b, 0) && a != [] && b != []
    requires forall p :: Covered(a, p) <==> Covered(b, p)
    ensures a[0].start <= b[0].start && (a[0].start == b[0].start ==> a[0].end <= b[0].end)
  {
    HeadCovered(b);
    assert Covered(a, b[0].start);
    var e := b[0].end;
    assert a[0].Contains(e) ==> Covered(a, e);
    assert !Covered(b, e);
  }

  // ---- merge_intervals --------------------------------------------------------------------

  predicate Before(a: TimeInterval, b: TimeInterval) {
    a.start < b.start || (a.start == b.start && a.end <= b.end)
  }

  function SortIntervals(s: seq<TimeInterval>): (r: seq<TimeInterval>)
    ensures multiset(r) == multiset(s)
    ensures Ordered(r)
  {
    SortIsSorted(s, Before);
    Sort(s, Before)
  }

  predicate Ordered(s: seq<TimeInterval>) {
    forall i, j :: 0 <= i < j < |s| ==> Before(s[i], s[j])
  }

  /** What one more interval of the ordered list does to the merged prefix. */
  function Absorb(merged: seq<TimeInterval>, x: TimeInterval, gap: nat): seq<TimeInterval>
    requires merged != []
    requires merged[|merged| - 1].start <= x.start
  {
    var last := merged[|merged| - 1];
    if x.start - last.end <= gap then
      merged[..|merged| - 1] + [Interval(last.start, Max(last.end, x.end))]
    else
      merged + [x]
  }

  function FoldMerge(ordered: seq<TimeInterval>, gap: nat): (r: seq<TimeInterval>)
    requires ordered != [] && Ordered(ordered)
    ensures r != [] && r[|r| - 1].start <= ordered[|ordered| - 1].start
  {
    if |ordered| == 1 then ordered
    else Absorb(FoldMerge(ordered[..|ordered| - 1], gap), ordered[|ordered| - 1], gap)
  }

  function Merge(s: seq<TimeInterval>, gap: nat): seq<TimeInterval> {
    if s == [] then [] else FoldMerge(SortIntervals(s), gap)
  }

  /** What the fold knows about the interval it is still growing. */
  ghost predicate LastFits(s: seq<TimeInterval>, last: TimeInterval) {
    && (exists x :: x in s && x.start == last.start)
    && (exists x :: x in s && x.end == last.end)
    && (forall x :: x in s ==> x.end <= last.end)
  }

  ghost predicate Canonical(r: seq<TimeInterval>, s: seq<TimeInterval>, gap: nat) {
    && r != [] && Separated(r, gap) && LastFits(s, r[|r| - 1])
    && forall p :: Covered(r, p) <==> Bridged(s, gap, p)
  }

  lemma {:induction false} FoldMergeCanonical(ordered: seq<TimeInterval>, gap: nat)
    requires ordered != [] && Ordered(ordered)
    ensures Canonical(FoldMerge(ordered, gap), ordered, gap)
  {
    if |ordered| == 1 {
      assert ordered[0] in ordered;
    } else {
      var s, x := ordered[..|ordered| - 1], ordered[|ordered| - 1];
      assert ordered == s + [x];
      assert forall y :: y in s ==> y.start <= x.start;
      assert FoldMerge(ordered, gap) == Absorb(FoldMerge(s, gap), x, gap);
      hide *;
      FoldMergeCanonical(s, gap);
      AbsorbCanonical(s, FoldMerge(s, gap), x, gap);
    }
  }

  lemma AbsorbCanonical(s: seq<TimeInterval>, merged: seq<TimeInterval>, x: TimeInterval, gap: nat)
    requires s != [] && (forall y :: y in s ==> y.start <= x.start)
    requires merged != [] && merged[|merged| - 1].start <= x.start
    requires Canonical(merged, s, gap)
    ensures Canonical(Absorb(merged, x, gap), s + [x], gap)
  {
    var r := Absorb(merged, x, gap);
    AbsorbShape(s, merged, x, gap);
    hide Absorb, Separated, LastFits, Covered, Bridged;
    forall p
      ensures Covered(r, p) <==> Bridged(s + [x], gap, p)
    {
      AbsorbCovered(merged, x, gap, p);
      if Covered(r, p) {
        CoveredIsBridged(s, merged, x, gap, p);
      }
      if Bridged(s + [x], gap, p) {
        BridgedIsCovered(s, merged, x, gap, p);
      }
    }
  }

  lemma AbsorbShape(s: seq<TimeInterval>, merged: seq<TimeInterval>, x: TimeInterval, gap: nat)
    requires merged != [] && merged[|merged| - 1].start <= x.start && (forall y :: y in s ==> y.start <= x.start)
    requires Separated(merged, gap) && LastFits(s, merged[|merged| - 1])
    ensures var r := Absorb(merged, x, gap);
      r != [] && Separated(r, gap) && LastFits(s + [x], r[|r| - 1])
  {
    assert x in s + [x];
    assert forall y :: y in s ==> y in s + [x];
  }

  lemma AbsorbCovered(merged: seq<TimeInterval>, x: TimeInterval, gap: nat, p: int)
    requires merged != [] && merged[|merged| - 1].start <= x.start
    ensures var last := merged[|merged| - 1];
      Covered(Absorb(merged, x, gap), p) <==>
        || Covered(merged, p)
        || (if x.start - last.end <= gap then last.end <= p < x.end else x.Contains(p))
  {
    var k := |merged| - 1;
    var last := merged[k];
    var r := Absorb(merged, x, gap);
    assert merged == merged[..k] + [last];
    CoveredConcat(merged[..k], [last], p);
    CoveredOne(last, p);
    if x.start - last.end <= gap {
      CoveredConcat(merged[..k], [r[k]], p);
      CoveredOne(r[k], p);
    } else {
      CoveredConcat(merged, [x], p);
      CoveredOne(x, p);
    }
  }

  lemma CoveredIsBridged(s: seq<TimeInterval>, merged: seq<TimeInterval>, x: TimeInterval, gap: nat, p: int)
    requires s != [] && merged != [] && LastFits(s, merged[|merged| - 1])
    requires Covered(merged, p) ==> Bridged(s, gap, p)
    requires var last := merged[|merged| - 1];
      || Covered(merged, p)
      || (if x.start - last.end <= gap then last.end <= p < x.end else x.Contains(p))
    ensures Bridged(s + [x], gap, p)
  {
    var last := merged[|merged| - 1];
    assert x in s + [x];
    assert forall y :: y in s ==> y in s + [x];
    if !Covered(merged, p) && !x.Contains(p) {
      var e :| e in s && e.end == last.end;
      assert e.end <= p < x.start <= e.end + gap;
    }
  }

  lemma BridgedIsCovered(s: seq<TimeInterval>, merged: seq<TimeInterval>, x: TimeInterval, gap: nat, p: int)
    requires s != [] && (forall y :: y in s ==> y.start <= x.start)
    requires merged != [] && LastFits(s, merged[|merged| - 1])
    requires Bridged(s, gap, p) ==> Covered(merged, p)
    requires Bridged(s + [x], gap, p)
    ensures var last := merged[|merged| - 1];
      || Covered(merged, p)
      || (if x.start - last.end <= gap then last.end <= p < x.end else x.Contains(p))
  {
    var last := merged[|merged| - 1];
    assert last in merged;
    if Covered(s, p) {
    } else if Covered(s + [x], p) {
      assert x.Contains(p);
    } else {
      var a, b :| a in s + [x] && b in s + [x] && a.end <= p < b.start <= a.end + gap;
      if a in s && b in s {
        assert Bridged(s, gap, p);
      } else {
        assert a in s && b == x;
        var f :| f in s && f.start == last.start;
        if p < last.start {
          assert a.end <= p < f.start <= a.end + gap;
          assert Bridged(s, gap, p);
        } else if p < last.end {
          assert last.Contains(p);
        }
      }
    }
  }

  /** The merged list is separated and covers exactly the bridged points. */
  lemma MergeCanonical(s: seq<TimeInterval>, gap: nat)
    ensures Separated(Merge(s, gap), gap)
    ensures forall p :: Covered(Merge(s, gap), p) <==> Bridged(s, gap, p)
  {
    if s != [] {
      var ordered := SortIntervals(s);
      FoldMergeCanonical(ordered, gap);
      SameElements(ordered, s);
    }
  }

  lemma SameElements<T>(a: seq<T>, b: seq<T>)
    requires multiset(a) == multiset(b)
    ensures forall x :: x in a <==> x in b
  {
    forall x
      ensures x in a <==> x in b
    {
      assert x in multiset(a) <==> x in a;
      assert x in multiset(b) <==> x in b;
    }
  }

  /** Only the set of input intervals matters: neither their order nor their multiplicity. */
  lemma MergeIgnoresOrder(a: seq<TimeInterval>, b: seq<TimeInterval>, gap: nat)
    requires forall x :: x in a <==> x in b
    ensures Merge(a, gap) == Merge(b, gap)
  {
    MergeCanonical(a, gap);
    MergeCanonical(b, gap);
    SeparatedUnique(Merge(a, gap), Merge(b, gap));
  }

  /** A list that is already separated by more than the gap is left alone. */
  lemma MergeFixesSeparated(s: seq<TimeInterval>, gap: nat)
    requires Separated(s, gap)
    ensures Merge(s, gap) == s
  {
    MergeCanonical(s, gap);
    forall p
      ensures Bridged(s, gap, p) <==> Covered(s, p)
    {
      NothingToBridge(s, gap, p);
    }
    hide *;
    assert Separated(s, 0) by {
      WiderGap(s, gap);
    }
    assert Separated(Merge(s, gap), 0) by {
      WiderGap(Merge(s, gap), gap);
    }
    SeparatedUnique(Merge(s, gap), s);
  }

  lemma WiderGap(s: seq<TimeInterval>, gap: nat)
    requires Separated(s, gap)
    ensures Separated(s, 0)
  {
  }

  lemma NothingToBridge(s: seq<TimeInterval>, gap: nat, p: int)
    requires Separated(s, gap)
    ensures Bridged(s, gap, p) <==> Covered(s, p)
  {
    forall a, b | a in s && b in s && a.end < b.start
      ensures a.end + gap < b.start
    {
      var i :| 0 <= i < |s| && s[i] == a;
      var j :| 0 <= j < |s| && s[j] == b;
      assert i < j;
    }
  }

  lemma MergeIdempotent(s: seq<TimeInterval>, gap: nat)
    ensures Merge(Merge(s, gap), gap) == Merge(s, gap)
  {
    MergeCanonical(s, gap);
    MergeFixesSeparated(Merge(s, gap), gap);
  }

  /** At gap 0 merging changes no point: the cover is the union. */
  lemma MergeIsUnion(s: seq<TimeInterval>)
    ensures Separated(Merge(s, 0), 0)
    ensures forall p :: Covered(Merge(s, 0), p) <==> Covered(s, p)
  {
    MergeCanonical(s, 0);
  }

  method MergeIntervals(intervals: seq<TimeInterval>, mergeGapMs: nat) returns (merged: seq<TimeInterval>)
    ensures merged == Merge(intervals, mergeGapMs)
  {
    hide Insert, Sort;
    if intervals == [] {
      return [];
    }
    var ordered := SortIntervals(intervals);
    assert |ordered| == |multiset(ordered)| == |multiset(intervals)| == |intervals|;
    merged := [ordered[0]];
    assert ordered[..1] == [ordered[0]];
    for i := 1 to |ordered|
      invariant merged == FoldMerge(ordered[..i], mergeGapMs)
    {
      var interval := ordered[i];
      var last := merged[|merged| - 1];
      assert ordered[..i + 1][..i] == ordered[..i];
      assert Before(ordered[i - 1], ordered[i]);
      if interval.start - last.end <= mergeGapMs {
        merged := merged[|merged| - 1 := Interval(last.start, Max(last.end, interval.end))];
      } else {
        merged := merged + [interval];
      }
      assert merged == Absorb(FoldMerge(ordered[..i], mergeGapMs), interval, mergeGapMs);
    }
    assert ordered[..|ordered|] == ordered;
  }

  // ---- total_duration_ms ------------------------------------------------------------------

  function SumDurations(s: seq<TimeInterval>): int {
    if s == [] then 0 else s[0].Duration() + SumDurations(s[1..])
  }

  function TotalDuration(s: seq<TimeInterval>): int {
    SumDurations(Merge(s, 0))
  }

  function Range(lo: int, hi: int): (r: set<int>)
    ensures forall p :: p in r <==> lo <= p < hi
    ensures lo <= hi ==> |r| == hi - lo
    decreases hi - lo
  {
    if lo >= hi then {} else Range(lo, hi - 1) + {hi - 1}
  }

  lemma HeadTailCover(s: seq<TimeInterval>)
    requires s != []
    ensures forall p :: Covered(s, p) <==> s[0].Contains(p) || Covered(s[1..], p)
  {
    forall p
      ensures Covered(s, p) <==> s[0].Contains(p) || Covered(s[1..], p)
    {
      assert s == [s[0]] + s[1..];
      CoveredConcat([s[0]], s[1..], p);
      CoveredOne(s[0], p);
    }
  }

  function Points(s: seq<TimeInterval>): (r: set<int>)
    ensures forall p :: p in r <==> Covered(s, p)
  {
    if s == [] then {}
    else
      assert forall p :: Covered(s, p) <==> s[0].Contains(p) || Covered(s[1..], p) by {
        HeadTailCover(s);
      }
      Range(s[0].start, s[0].end) + Points(s[1..])
  }

  lemma {:induction false} SumIsPointCount(s: seq<TimeInterval>)
    requires Separated(s, 0)
    ensures SumDurations(s) == |Points(s)|
  {
    if s != [] {
      SumIsPointCount(s[1..]);
      var head, tail := Range(s[0].start, s[0].end), Points(s[1..]);
      forall p | p in head
        ensures p !in tail
      {
        TailCover(s, p);
      }
      assert head !! tail;
      assert |head + tail| == |head| + |tail|;
    }
  }

  /** Total duration counts every covered millisecond once, however often it is covered. */
  lemma TotalDurationCountsPoints(s: seq<TimeInterval>)
    ensures TotalDuration(s) == |Points(s)|
  {
    MergeIsUnion(s);
    SumIsPointCount(Merge(s, 0));
    assert Points(Merge(s, 0)) == Points(s);
  }

  // ---- Interval difference ----------------------------------------------------------------

  /** What is left of one interval once a hole is cut out of it. */
  function Cut(x: TimeInterval, hole: TimeInterval): seq<TimeInterval> {
    if !x.Intersects(hole) then [x]
    else
      var left: seq<TimeInterval> := if x.start < hole.start then [Interval(x.start, hole.start)] else [];
      var right: seq<TimeInterval> := if hole.end < x.end then [Interval(hole.end, x.end)] else [];
      left + right
  }

  function CutAll(xs: seq<TimeInterval>, hole: TimeInterval): seq<TimeInterval> {
    if xs == [] then [] else CutAll(xs[..|xs| - 1], hole) + Cut(xs[|xs| - 1], hole)
  }

  function CutHoles(xs: seq<TimeInterval>, holes: seq<TimeInterval>): seq<TimeInterval> {
    if holes == [] then xs
    else CutAll(CutHoles(xs, holes[..|holes| - 1]), holes[|holes| - 1])
  }

  function Subtract(intervals: seq<TimeInterval>, holes: seq<TimeInterval>): seq<TimeInterval> {
    CutHoles(Merge(intervals, 0), Merge(holes, 0))
  }

  /** Each piece of `r` lies inside an interval of `xs`. */
  ghost predicate Inside(r: seq<TimeInterval>, xs: seq<TimeInterval>) {
    forall y :: y in r ==> exists x :: x in xs && x.start <= y.start && y.end <= x.end
  }

  lemma {:induction false} CutAllPoints(xs: seq<TimeInterval>, hole: TimeInterval)
    requires Separated(xs, 0)
    ensures Separated(CutAll(xs, hole), 0)
    ensures Inside(CutAll(xs, hole), xs)
    ensures forall p :: Covered(CutAll(xs, hole), p) <==> Covered(xs, p) && !hole.Contains(p)
  {
    if xs != [] {
      var init, x := xs[..|xs| - 1], xs[|xs| - 1];
      CutAllPoints(init, hole);
      assert xs == init + [x];
      CutNext(init, CutAll(init, hole), x, hole);
      forall p
        ensures Covered(CutAll(xs, hole), p) <==> Covered(xs, p) && !hole.Contains(p)
      {
        hide Covered;
        CoveredConcat(CutAll(init, hole), Cut(x, hole), p);
        CoveredConcat(init, [x], p);
        CoveredOne(x, p);
        CutPoints(x, hole, p);
      }
    }
  }

  lemma CutNext(init: seq<TimeInterval>, rest: seq<TimeInterval>, x: TimeInterval, hole: TimeInterval)
    requires Separated(init + [x], 0) && Separated(rest, 0) && Inside(rest, init)
    ensures Separated(rest + Cut(x, hole), 0)
    ensures Inside(rest + Cut(x, hole), init + [x])
  {
    var xs := init + [x];
    assert xs[|init|] == x;
    assert forall i :: 0 <= i < |init| ==> xs[i] == init[i] && init[i].end < x.start;
    assert forall y :: y in rest ==> y.end < x.start;
    assert forall y :: y in xs <==> y in init || y == x;
    assert forall y :: y in Cut(x, hole) ==> x.start <= y.start && y.end <= x.end;
  }

  lemma CoveredOne(x: TimeInterval, p: int)
    ensures Covered([x], p) <==> x.Contains(p)
  {
    assert x in [x];
  }

  lemma CoveredConcat(a: seq<TimeInterval>, b: seq<TimeInterval>, p: int)
    ensures Covered(a + b, p) <==> Covered(a, p) || Covered(b, p)
  {
    assert forall x :: x in a + b <==> x in a || x in b;
  }

  lemma CutPoints(x: TimeInterval, hole: TimeInterval, p: int)
    ensures Covered(Cut(x, hole), p) <==> x.Contains(p) && !hole.Contains(p)
  {
    var cut := Cut(x, hole);
    if !x.Intersects(hole) {
      assert x in cut;
    } else {
      if x.start < hole.start {
        assert cut[0] == Interval(x.start, hole.start) && cut[0] in cut;
      }
      if hole.end < x.end {
        assert cut[|cut| - 1] == Interval(hole.end, x.end) && cut[|cut| - 1] in cut;
      }
    }
  }

  lemma {:induction false} CutHolesPoints(xs: seq<TimeInterval>, holes: seq<TimeInterval>)
    requires Separated(xs, 0)
    ensures Separated(CutHoles(xs, holes), 0)
    ensures forall p :: Covered(CutHoles(xs, holes), p) <==> Covered(xs, p) && !Covered(holes, p)
  {
    if holes != [] {
      var init, hole := holes[..|holes| - 1], holes[|holes| - 1];
      CutHolesPoints(xs, init);
      assert holes == init + [hole];
      CutHolesStep(xs, CutHoles(xs, init), init, hole);
    }
  }

  lemma CutHolesStep(xs: seq<TimeInterval>, r: seq<TimeInterval>, init: seq<TimeInterval>, hole: TimeInterval)
    requires Separated(r, 0)
    requires forall p :: Covered(r, p) <==> Covered(xs, p) && !Covered(init, p)
    ensures Separated(CutAll(r, hole), 0)
    ensures forall p :: Covered(CutAll(r, hole), p) <==> Covered(xs, p) && !Covered(init + [hole], p)
  {
    hide *;
    CutAllPoints(r, hole);
    forall p
      ensures Covered(init + [hole], p) <==> Covered(init, p) || hole.Contains(p)
    {
      CoveredConcat(init, [hole], p);
      CoveredOne(hole, p);
    }
  }

  /** `Subtract` is pointwise set difference, in canonical form. */
  lemma SubtractIsDifference(intervals: seq<TimeInterval>, holes: seq<TimeInterval>)
    ensures Separated(Subtract(intervals, holes), 0)
    ensures forall p :: Covered(Subtract(intervals, holes), p) <==> Covered(intervals, p) && !Covered(holes, p)
  {
    MergeIsUnion(intervals);
    MergeIsUnion(holes);
    CutHolesPoints(Merge(intervals, 0), Merge(holes, 0));
  }

  /** Cutting two hole lists one after the other is cutting them together. */
  lemma SubtractTwice(xs: seq<TimeInterval>, a: seq<TimeInterval>, b: seq<TimeInterval>)
    ensures Subtract(Subtract(xs, a), b) == Subtract(xs, a + b)
  {
    SubtractIsDifference(xs, a);
    SubtractIsDifference(Subtract(xs, a), b);
    SubtractIsDifference(xs, a + b);
    forall p
      ensures Covered(a + b, p) <==> Covered(a, p) || Covered(b, p)
    {
      CoveredConcat(a, b, p);
    }
    SeparatedUnique(Subtract(Subtract(xs, a), b), Subtract(xs, a + b));
  }

  /** One round of the subtraction: every interval loses the hole. */
  method CutHole(remaining: seq<TimeInterval>, hole: TimeInterval) returns (nextRound: seq<TimeInterval>)
    ensures nextRound == CutAll(remaining, hole)
  {
    nextRound := [];
    for i := 0 to |remaining|
      invariant nextRound == CutAll(remaining[..i], hole)
    {
      var interval := remaining[i];
      assert remaining[..i + 1][..i] == remaining[..i];
      ghost var before := nextRound;
      if !interval.Intersects(hole) {
        nextRound := nextRound + [interval];
      } else {
        if interval.start < hole.start {
          nextRound := nextRound + [Interval(interval.start, hole.start)];
        }
        if hole.end < interval.end {
          nextRound := nextRound + [Interval(hole.end, interval.end)];
        }
      }
      assert nextRound == before + Cut(interval, hole);
    }
    assert remaining[..|remaining|] == remaining;
  }

  method SubtractIntervals(intervals: seq<TimeInterval>, holes: seq<TimeInterval>)
    returns (remaining: seq<TimeInterval>)
    ensures remaining == Subtract(intervals, holes)
  {
    remaining := MergeIntervals(intervals, 0);
    var mergedHoles := MergeIntervals(holes, 0);
    ghost var xs := remaining;
    for h := 0 to |mergedHoles|
      invariant remaining == CutHoles(xs, mergedHoles[..h])
    {
      remaining := CutHole(remaining, mergedHoles[h]);
      assert mergedHoles[..h + 1][..h] == mergedHoles[..h];
    }
    assert mergedHoles[..|mergedHoles|] == mergedHoles;
  }
}
