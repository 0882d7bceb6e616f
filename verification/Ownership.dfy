/** Which slice of the timeline emits a word.

Speech outside the overlap regions is transcribed slice by slice; each overlap region is transcribed
through the owned slices of its windows, or as one mixture.  A word belongs to the slice that
contains its midpoint.  Over all slices of a session a midpoint has at most one owner, so no word is
emitted twice; it has none exactly in slivers shorter than 50 ms, in the tail a window split leaves,
and outside speech and overlap (`OwnedIff`).
*/
module Ownership {
  import opened CropSplit
  import opened Timeline
  import opened Transcript

  const MIN_SLICE_MS := 50

  function Midpoint(w: Word): int {
    (w.start + w.end) / 2
  }

  function WordsOwnedBy(words: seq<Word>, slice: TimeInterval): seq<Word> {
    if words == [] then []
    else (if slice.Contains(Midpoint(words[0])) then [words[0]] else []) + WordsOwnedBy(words[1..], slice)
  }

  /** A slice that holds more than half of a word owns it. */
  lemma MostOfItOwns(w: Word, slice: TimeInterval)
    requires 2 * slice.IntersectionMs(w.Interval()) > w.end - w.start
    ensures slice.Contains(Midpoint(w))
  {
    var m := Midpoint(w);
    assert 2 * m <= w.start + w.end < 2 * m + 2;
  }

  // ---- Overlap regions and non-overlap slices ---------------------------------------------

  function LongEnough(s: seq<TimeInterval>, minDuration: int): seq<TimeInterval> {
    if s == [] then []
    else
      var init, last := s[..|s| - 1], s[|s| - 1];
      LongEnough(init, minDuration) + (if last.Duration() < minDuration then [] else [last])
  }

  method MergeOverlapRegions(diarization: seq<TimeInterval>, osd: seq<TimeInterval>,
                             mergeGapMs: nat, minDurationMs: int)
    returns (regions: seq<TimeInterval>)
    ensures regions == LongEnough(Merge(diarization + osd, mergeGapMs), minDurationMs)
  {
    var merged := MergeIntervals(diarization + osd, mergeGapMs);
    regions := KeepLong(merged, minDurationMs);
  }

  method NonOverlapSlices(speech: seq<TimeInterval>, regions: seq<TimeInterval>)
    returns (slices: seq<TimeInterval>)
    ensures slices == LongEnough(Subtract(speech, regions), MIN_SLICE_MS)
  {
    var remaining := SubtractIntervals(speech, regions);
    slices := KeepLong(remaining, MIN_SLICE_MS);
  }

  method KeepLong(s: seq<TimeInterval>, minDurationMs: int) returns (kept: seq<TimeInterval>)
    ensures kept == LongEnough(s, minDurationMs)
  {
    kept := [];
    for i := 0 to |s|
      invariant kept == LongEnough(s[..i], minDurationMs)
    {
      assert s[..i + 1][..i] == s[..i];
      if s[i].Duration() < minDurationMs {
        continue;
      }
      kept := kept + [s[i]];
    }
    assert s[..|s|] == s;
  }

  lemma {:induction false} LongEnoughKeeps(s: seq<TimeInterval>, minDuration: int, gap: nat)
    requires Separated(s, gap)
    ensures Separated(LongEnough(s, minDuration), gap)
    ensures forall x :: x in LongEnough(s, minDuration) <==> x in s && x.Duration() >= minDuration
  {
    if s != [] {
      var init, last := s[..|s| - 1], s[|s| - 1];
      LongEnoughKeeps(init, minDuration, gap);
      assert s == init + [last];
      assert forall x :: x in init ==> x.end + gap < last.start;
    }
  }

  lemma EdgesAreFree(s: seq<TimeInterval>, x: TimeInterval)
    requires Separated(s, 0) && x in s
    ensures !Covered(s, x.start - 1) && !Covered(s, x.end)
  {
  }

  ghost predicate CoveredFromTo(s: seq<TimeInterval>, lo: int, hi: int) {
    forall q :: lo <= q < hi ==> Covered(s, q)
  }

  /** A separated interval holds every covered stretch it meets. */
  lemma StretchInside(s: seq<TimeInterval>, x: TimeInterval, lo: int, hi: int, p: int)
    requires Separated(s, 0) && x in s && x.Contains(p) && lo <= p < hi && CoveredFromTo(s, lo, hi)
    ensures x.start <= lo && hi <= x.end
  {
    EdgesAreFree(s, x);
  }

  lemma LongPieceIff(s: seq<TimeInterval>, minDuration: int, p: int)
    requires Separated(s, 0)
    ensures (exists x :: x in s && x.Duration() >= minDuration && x.Contains(p)) <==>
      exists lo, hi {:trigger CoveredFromTo(s, lo, hi)} ::
        lo <= p < hi && hi - lo >= minDuration && CoveredFromTo(s, lo, hi)
  {
    if x :| x in s && x.Duration() >= minDuration && x.Contains(p) {
      assert CoveredFromTo(s, x.start, x.end);
    }
    if lo, hi :| lo <= p < hi && hi - lo >= minDuration && CoveredFromTo(s, lo, hi) {
      assert Covered(s, p);
      var x :| x in s && x.Contains(p);
      StretchInside(s, x, lo, hi, p);
    }
  }

  lemma LongEnoughCovers(s: seq<TimeInterval>, minDuration: int, gap: nat, p: int)
    requires Separated(s, gap)
    ensures Covered(LongEnough(s, minDuration), p)
       <==> exists x :: x in s && x.Duration() >= minDuration && x.Contains(p)
  {
    LongEnoughKeeps(s, minDuration, gap);
  }

  /** Evidence with gaps of at most `gap` from `lo` up to `hi`. */
  ghost predicate BridgedFromTo(evidence: seq<TimeInterval>, gap: nat, lo: int, hi: int) {
    forall q :: lo <= q < hi ==> Bridged(evidence, gap, q)
  }

  /** The regions a session works with are separated, and a millisecond is in one exactly when it lies in
  a long enough stretch of bridged evidence. */
  lemma OverlapRegionsIff(diarization: seq<TimeInterval>, osd: seq<TimeInterval>, mergeGap: nat, minDuration: int,
                          p: int)
    ensures var r := LongEnough(Merge(diarization + osd, mergeGap), minDuration);
      && Separated(r, mergeGap)
      && (forall x :: x in r ==> x.Duration() >= minDuration)
      && (Covered(r, p) <==> exists lo, hi ::
            lo <= p < hi && hi - lo >= minDuration && BridgedFromTo(diarization + osd, mergeGap, lo, hi))
  {
    var evidence, merged := diarization + osd, Merge(diarization + osd, mergeGap);
    MergeCanonical(evidence, mergeGap);
    LongEnoughKeeps(merged, minDuration, mergeGap);
    LongEnoughCovers(merged, minDuration, mergeGap, p);
    LongPieceIff(merged, minDuration, p);
    hide LongEnough, Merge, Covered, Bridged, Separated;
    forall lo, hi
      ensures CoveredFromTo(merged, lo, hi) <==> BridgedFromTo(evidence, mergeGap, lo, hi)
    {
    }
    hide CoveredFromTo, BridgedFromTo;
  }

  // ---- Owners of a point ------------------------------------------------------------------

  function Owners(slices: seq<TimeInterval>, p: int): nat {
    if slices == [] then 0
    else (if slices[0].Contains(p) then 1 else 0) + Owners(slices[1..], p)
  }

  lemma {:induction false} OwnersConcat(a: seq<TimeInterval>, b: seq<TimeInterval>, p: int)
    ensures Owners(a + b, p) == Owners(a, p) + Owners(b, p)
  {
    if a == [] {
      assert a + b == b;
    } else {
      OwnersConcat(a[1..], b, p);
      assert (a + b)[1..] == a[1..] + b;
    }
  }

  lemma {:induction false} DisjointHasOneOwner(s: seq<TimeInterval>, p: int)
    requires Disjoint(s)
    ensures Owners(s, p) == if Covered(s, p) then 1 else 0
  {
    if s == [] {
      HeadCovered(s);
    } else {
      DisjointHasOneOwner(s[1..], p);
      HeadTailCover(s);
      if Covered(s[1..], p) {
        var x :| x in s[1..] && x.Contains(p);
      }
    }
  }

  /** One list of slices per overlap region: they tile it from its start, perhaps not to its end. */
  ghost predicate Plan(region: TimeInterval, slices: seq<TimeInterval>) {
    && Tiles(slices, region.start, Reach(slices, region.start))
    && Reach(slices, region.start) <= region.end
  }

  ghost predicate Plans(regions: seq<TimeInterval>, plans: seq<seq<TimeInterval>>) {
    && |plans| == |regions|
    && forall i :: 0 <= i < |regions| ==> Plan(regions[i], plans[i])
  }

  /** Separation follows the window split; mixture transcription takes the whole region. */
  lemma SplitIsPlan(padded: TimeInterval, region: TimeInterval, maxCrop: int, stitch: int)
    requires maxCrop >= 1 && stitch >= 0
    ensures Plan(region, Owned(Pieces(padded, region, maxCrop, stitch)))
    ensures Reach(Owned(Pieces(padded, region, maxCrop, stitch)), region.start)
         == OwnedUpTo(padded, region, maxCrop, stitch)
  {
    var slices := Owned(Pieces(padded, region, maxCrop, stitch));
    OwnedTilesRegion(padded, region, maxCrop, stitch);
    TilesReach(slices, region.start, OwnedUpTo(padded, region, maxCrop, stitch));
  }

  lemma MixtureIsPlan(region: TimeInterval)
    ensures Plan(region, [region]) && Reach([region], region.start) == region.end
  {
    assert Tiles([region][1..], region.end, region.end);
  }

  lemma {:induction false} TilesReach(s: seq<TimeInterval>, from: int, to: int)
    requires Tiles(s, from, to)
    ensures Reach(s, from) == to
  {
    if s != [] {
      TilesReach(s[1..], s[0].end, to);
    }
  }

  function Flat(plans: seq<seq<TimeInterval>>): seq<TimeInterval> {
    if plans == [] then [] else Flat(plans[..|plans| - 1]) + plans[|plans| - 1]
  }

  /** Some region has a slice at `p`. */
  ghost predicate Planned(regions: seq<TimeInterval>, plans: seq<seq<TimeInterval>>, p: int)
    requires |plans| == |regions|
  {
    exists i :: 0 <= i < |regions| && regions[i].start <= p < Reach(plans[i], regions[i].start)
  }

  lemma {:induction false} FlatPlans(regions: seq<TimeInterval>, plans: seq<seq<TimeInterval>>, p: int)
    requires Separated(regions, 0) && Plans(regions, plans)
    ensures Owners(Flat(plans), p) == if Planned(regions, plans, p) then 1 else 0
    ensures Planned(regions, plans, p) ==> Covered(regions, p)
  {
    if regions != [] {
      var n := |regions| - 1;
      FlatPlans(regions[..n], plans[..n], p);
      var region, slices := regions[n], plans[n];
      TilesPoints(slices, region.start, Reach(slices, region.start));
      DisjointHasOneOwner(slices, p);
      OwnersConcat(Flat(plans[..n]), slices, p);
      PlannedLast(regions, plans, p);
      if Covered(regions[..n], p) {
        var x :| x in regions[..n] && x.Contains(p);
        assert x.end < region.start;
      }
      assert region in regions;
    }
  }

  lemma PlannedLast(regions: seq<TimeInterval>, plans: seq<seq<TimeInterval>>, p: int)
    requires |plans| == |regions| && regions != []
    ensures var n := |regions| - 1;
      Planned(regions, plans, p) <==>
        || Planned(regions[..n], plans[..n], p)
        || regions[n].start <= p < Reach(plans[n], regions[n].start)
  {
    var n := |regions| - 1;
    if Planned(regions[..n], plans[..n], p) {
      var i :| 0 <= i < n && regions[..n][i].start <= p < Reach(plans[..n][i], regions[..n][i].start);
      assert regions[i].start <= p < Reach(plans[i], regions[i].start);
    }
    if Planned(regions, plans, p) {
      var i :| 0 <= i < |regions| && regions[i].start <= p < Reach(plans[i], regions[i].start);
      assert i < n ==> regions[..n][i].start <= p < Reach(plans[..n][i], regions[..n][i].start);
    }
  }

  function NonOverlap(speech: seq<TimeInterval>, regions: seq<TimeInterval>): seq<TimeInterval> {
    LongEnough(Subtract(speech, regions), MIN_SLICE_MS)
  }

  /** `p` is speech outside the regions, in a remaining piece that is long enough to transcribe. */
  ghost predicate InNonOverlap(speech: seq<TimeInterval>, regions: seq<TimeInterval>, p: int) {
    exists x :: x in Subtract(speech, regions) && x.Duration() >= MIN_SLICE_MS && x.Contains(p)
  }

  /** Speech outside the regions, from `lo` up to `hi`. */
  ghost predicate SpeechFromTo(speech: seq<TimeInterval>, regions: seq<TimeInterval>, lo: int, hi: int) {
    forall q :: lo <= q < hi ==> Covered(speech, q) && !Covered(regions, q)
  }

  /** `p` is transcribed outside the regions exactly when it lies in 50 ms or more of speech without them. */
  lemma InLongStretchIff(speech: seq<TimeInterval>, regions: seq<TimeInterval>, p: int)
    ensures InNonOverlap(speech, regions, p) <==>
      exists lo, hi :: lo <= p < hi && hi - lo >= 50 && SpeechFromTo(speech, regions, lo, hi)
  {
    var remaining := Subtract(speech, regions);
    SubtractIsDifference(speech, regions);
    LongPieceIff(remaining, MIN_SLICE_MS, p);
    hide Subtract, Covered, Separated;
    forall lo, hi
      ensures CoveredFromTo(remaining, lo, hi) <==> SpeechFromTo(speech, regions, lo, hi)
    {
    }
    hide CoveredFromTo, SpeechFromTo;
  }

  function AllSlices(speech: seq<TimeInterval>, regions: seq<TimeInterval>,
                     plans: seq<seq<TimeInterval>>): seq<TimeInterval> {
    NonOverlap(speech, regions) + Flat(plans)
  }

  lemma NonOverlapOwner(speech: seq<TimeInterval>, regions: seq<TimeInterval>, p: int)
    ensures Owners(NonOverlap(speech, regions), p) == if InNonOverlap(speech, regions, p) then 1 else 0
    ensures InNonOverlap(speech, regions, p) ==> Covered(speech, p) && !Covered(regions, p)
  {
    var remaining := Subtract(speech, regions);
    SubtractIsDifference(speech, regions);
    LongEnoughKeeps(remaining, MIN_SLICE_MS, 0);
    DisjointHasOneOwner(NonOverlap(speech, regions), p);
    if InNonOverlap(speech, regions, p) {
      var x :| x in remaining && x.Duration() >= MIN_SLICE_MS && x.Contains(p);
      assert Covered(remaining, p);
    }
  }

  /** No point has two owners, and it has one exactly where a slice was planned for it. */
  lemma AtMostOneOwner(speech: seq<TimeInterval>, regions: seq<TimeInterval>,
                       plans: seq<seq<TimeInterval>>, p: int)
    requires Separated(regions, 0) && Plans(regions, plans)
    ensures Owners(AllSlices(speech, regions, plans), p) <= 1
    ensures Owners(AllSlices(speech, regions, plans), p) == 1 <==>
      InNonOverlap(speech, regions, p) || Planned(regions, plans, p)
  {
    NonOverlapOwner(speech, regions, p);
    FlatPlans(regions, plans, p);
    OwnersConcat(NonOverlap(speech, regions), Flat(plans), p);
  }

  // ---- The slices of a session ------------------------------------------------------------

  /** How a region ended up being transcribed: as a mixture, by separation of the padded region, or by
  the retry on the bare one. */
  datatype Treatment = Mixture | Padded | Bare

  datatype Splitting = Splitting(context: nat, lower: nat, upper: int, maxCrop: int, stitch: int) {
    predicate Valid() {
      maxCrop >= 1 && stitch >= 0
    }
  }

  /** The interval handed to the window split. */
  function Window(region: TimeInterval, t: Treatment, sp: Splitting): TimeInterval {
    if t.Padded? then Pad(region, sp.context, sp.lower, sp.upper) else region
  }

  function RegionSlices(region: TimeInterval, t: Treatment, sp: Splitting): seq<TimeInterval>
    requires sp.Valid()
  {
    if t.Mixture? then [region] else Owned(Pieces(Window(region, t, sp), region, sp.maxCrop, sp.stitch))
  }

  /** Up to where a region is transcribed. */
  function RegionEnd(region: TimeInterval, t: Treatment, sp: Splitting): int
    requires sp.Valid()
  {
    if t.Mixture? then region.end else OwnedUpTo(Window(region, t, sp), region, sp.maxCrop, sp.stitch)
  }

  function SessionPlans(regions: seq<TimeInterval>, ts: seq<Treatment>, sp: Splitting): (r: seq<seq<TimeInterval>>)
    requires |ts| == |regions| && sp.Valid()
    ensures |r| == |regions|
    ensures forall i :: 0 <= i < |r| ==> r[i] == RegionSlices(regions[i], ts[i], sp)
  {
    seq(|regions|, i requires 0 <= i < |regions| => RegionSlices(regions[i], ts[i], sp))
  }

  function SessionSlices(speech: seq<TimeInterval>, regions: seq<TimeInterval>, ts: seq<Treatment>,
                         sp: Splitting): seq<TimeInterval>
    requires |ts| == |regions| && sp.Valid()
  {
    AllSlices(speech, regions, SessionPlans(regions, ts, sp))
  }

  lemma RegionIsPlan(region: TimeInterval, t: Treatment, sp: Splitting)
    requires sp.Valid()
    ensures Plan(region, RegionSlices(region, t, sp))
    ensures Reach(RegionSlices(region, t, sp), region.start) == RegionEnd(region, t, sp) <= region.end
  {
    hide Plan, Pieces, OwnedUpTo, Reach, Pad;
    if t.Mixture? {
      MixtureIsPlan(region);
    } else {
      SplitIsPlan(Window(region, t, sp), region, sp.maxCrop, sp.stitch);
    }
    PlanEnds(region, RegionSlices(region, t, sp));
  }

  lemma PlanEnds(region: TimeInterval, slices: seq<TimeInterval>)
    requires Plan(region, slices)
    ensures Reach(slices, region.start) <= region.end
  {
  }

  lemma SessionPlansArePlans(regions: seq<TimeInterval>, ts: seq<Treatment>, sp: Splitting)
    requires |ts| == |regions| && sp.Valid()
    ensures Plans(regions, SessionPlans(regions, ts, sp))
  {
    hide Plan, RegionSlices;
    forall i | 0 <= i < |regions|
      ensures Plan(regions[i], RegionSlices(regions[i], ts[i], sp))
    {
      RegionIsPlan(regions[i], ts[i], sp);
    }
  }

  /** `p` is in a piece of speech outside the regions that is too short to transcribe. */
  ghost predicate InSliver(speech: seq<TimeInterval>, regions: seq<TimeInterval>, p: int) {
    exists x :: x in Subtract(speech, regions) && x.Duration() < MIN_SLICE_MS && x.Contains(p)
  }

  /** `p` is in the end of a region that the windows do not reach. */
  ghost predicate InTail(regions: seq<TimeInterval>, ts: seq<Treatment>, sp: Splitting, p: int)
    requires |ts| == |regions| && sp.Valid()
  {
    exists i :: 0 <= i < |regions| && regions[i].Contains(p) && RegionEnd(regions[i], ts[i], sp) <= p
  }

  lemma SpeechOutsideRegions(speech: seq<TimeInterval>, regions: seq<TimeInterval>, p: int)
    ensures InNonOverlap(speech, regions, p) || InSliver(speech, regions, p)
       <==> Covered(speech, p) && !Covered(regions, p)
    ensures !(InNonOverlap(speech, regions, p) && InSliver(speech, regions, p))
  {
    var remaining := Subtract(speech, regions);
    SubtractIsDifference(speech, regions);
    hide Subtract;
    if InNonOverlap(speech, regions, p) || InSliver(speech, regions, p) {
      assert Covered(remaining, p);
    }
    if Covered(remaining, p) {
      var x :| x in remaining && x.Contains(p);
    }
  }

  lemma OverlapInRegions(regions: seq<TimeInterval>, ts: seq<Treatment>, sp: Splitting, p: int)
    requires Separated(regions, 0) && |ts| == |regions| && sp.Valid()
    ensures Planned(regions, SessionPlans(regions, ts, sp), p) || InTail(regions, ts, sp, p) <==> Covered(regions, p)
    ensures !(Planned(regions, SessionPlans(regions, ts, sp), p) && InTail(regions, ts, sp, p))
  {
    hide RegionSlices, RegionEnd, Reach;
    var plans := SessionPlans(regions, ts, sp);
    forall i | 0 <= i < |regions|
      ensures Reach(plans[i], regions[i].start) == RegionEnd(regions[i], ts[i], sp) <= regions[i].end
    {
      RegionIsPlan(regions[i], ts[i], sp);
    }
    if Covered(regions, p) {
      var i :| 0 <= i < |regions| && regions[i].Contains(p);
      assert p < RegionEnd(regions[i], ts[i], sp) ==> regions[i].start <= p < Reach(plans[i], regions[i].start);
      assert RegionEnd(regions[i], ts[i], sp) <= p ==> InTail(regions, ts, sp, p);
    }
    if Planned(regions, plans, p) {
      var i :| 0 <= i < |regions| && regions[i].start <= p < Reach(plans[i], regions[i].start);
      assert regions[i] in regions && regions[i].Contains(p);
    }
    if InTail(regions, ts, sp, p) {
      var i :| 0 <= i < |regions| && regions[i].Contains(p) && RegionEnd(regions[i], ts[i], sp) <= p;
      assert regions[i] in regions;
    }
  }

  /** A point has an owner exactly when it is speech or overlap, and neither in a sliver nor in a tail;
  and never two. */
  lemma OwnedIff(speech: seq<TimeInterval>, regions: seq<TimeInterval>, ts: seq<Treatment>, sp: Splitting, p: int)
    requires Separated(regions, 0) && |ts| == |regions| && sp.Valid()
    ensures Owners(SessionSlices(speech, regions, ts, sp), p) <= 1
    ensures Owners(SessionSlices(speech, regions, ts, sp), p) == 1 <==>
      && (Covered(speech, p) || Covered(regions, p))
      && !InSliver(speech, regions, p) && !InTail(regions, ts, sp, p)
  {
    hide *;
    SessionPlansArePlans(regions, ts, sp);
    AtMostOneOwner(speech, regions, SessionPlans(regions, ts, sp), p);
    SpeechOutsideRegions(speech, regions, p);
    OverlapInRegions(regions, ts, sp, p);
    SessionSlicesAre(speech, regions, ts, sp);
  }

  lemma SessionSlicesAre(speech: seq<TimeInterval>, regions: seq<TimeInterval>, ts: seq<Treatment>, sp: Splitting)
    requires |ts| == |regions| && sp.Valid()
    ensures SessionSlices(speech, regions, ts, sp) == AllSlices(speech, regions, SessionPlans(regions, ts, sp))
  {
  }

  ghost predicate Gapless(speech: seq<TimeInterval>, regions: seq<TimeInterval>, ts: seq<Treatment>, sp: Splitting)
    requires |ts| == |regions| && sp.Valid()
  {
    forall p :: Covered(speech, p) || Covered(regions, p) ==> Owners(SessionSlices(speech, regions, ts, sp), p) == 1
  }

  /** Speech and overlap are owned without a gap exactly when no remaining piece is a sliver and every
  region is transcribed to its end. */
  lemma GaplessIff(speech: seq<TimeInterval>, regions: seq<TimeInterval>, ts: seq<Treatment>, sp: Splitting)
    requires Separated(regions, 0) && |ts| == |regions| && sp.Valid()
    ensures Gapless(speech, regions, ts, sp) <==>
      && (forall x :: x in Subtract(speech, regions) ==> x.Duration() >= MIN_SLICE_MS)
      && (forall i :: 0 <= i < |regions| ==> RegionEnd(regions[i], ts[i], sp) == regions[i].end)
  {
    hide SessionSlices, Subtract, RegionEnd;
    forall p
      ensures Owners(SessionSlices(speech, regions, ts, sp), p) == 1 <==>
        && (Covered(speech, p) || Covered(regions, p))
        && !InSliver(speech, regions, p) && !InTail(regions, ts, sp, p)
    {
      OwnedIff(speech, regions, ts, sp, p);
    }
    forall x | x in Subtract(speech, regions) && x.Duration() < MIN_SLICE_MS
      ensures !Gapless(speech, regions, ts, sp)
    {
      SpeechOutsideRegions(speech, regions, x.start);
      assert x.Contains(x.start) && InSliver(speech, regions, x.start);
    }
    forall i | 0 <= i < |regions|
      ensures RegionEnd(regions[i], ts[i], sp) <= regions[i].end
      ensures RegionEnd(regions[i], ts[i], sp) < regions[i].end ==> !Gapless(speech, regions, ts, sp)
    {
      RegionIsPlan(regions[i], ts[i], sp);
      var last := regions[i].end - 1;
      assert regions[i].Contains(last);
      if RegionEnd(regions[i], ts[i], sp) <= last {
        assert InTail(regions, ts, sp, last) && Covered(regions, last);
      }
    }
  }

  // ---- Words ------------------------------------------------------------------------------

  /** What was recognised for one source of a slice, and whether the transcript was found plausible. */
  datatype Recognition = Recognition(words: seq<Word>, plausible: bool)

  /** The words of the groups made from a slice. */
  function GroupWords(heard: seq<Recognition>, slice: TimeInterval): seq<Word> {
    if heard == [] then []
    else (if heard[0].plausible then WordsOwnedBy(heard[0].words, slice) else []) + GroupWords(heard[1..], slice)
  }

  /** How often plausible transcripts hold `w`. */
  function Spoken(heard: seq<Recognition>, w: Word): nat {
    if heard == [] then 0
    else (if heard[0].plausible then multiset(heard[0].words)[w] else 0) + Spoken(heard[1..], w)
  }

  /** How often `w` comes out. */
  function Emitted(heard: seq<seq<Recognition>>, slices: seq<TimeInterval>, w: Word): nat
    requires |heard| == |slices|
  {
    if slices == [] then 0
    else multiset(GroupWords(heard[0], slices[0]))[w] + Emitted(heard[1..], slices[1..], w)
  }

  lemma {:induction false} OwnedMultiplicity(words: seq<Word>, slice: TimeInterval, w: Word)
    ensures multiset(WordsOwnedBy(words, slice))[w]
         == if slice.Contains(Midpoint(w)) then multiset(words)[w] else 0
  {
    if words != [] {
      OwnedMultiplicity(words[1..], slice, w);
      assert words == [words[0]] + words[1..];
    }
  }

  lemma {:induction false} GroupMultiplicity(heard: seq<Recognition>, slice: TimeInterval, w: Word)
    ensures multiset(GroupWords(heard, slice))[w] == if slice.Contains(Midpoint(w)) then Spoken(heard, w) else 0
  {
    if heard != [] {
      GroupMultiplicity(heard[1..], slice, w);
      OwnedMultiplicity(heard[0].words, slice, w);
    }
  }

  lemma {:induction false} EmittedByOwner(heard: seq<seq<Recognition>>, slices: seq<TimeInterval>, w: Word)
    requires |heard| == |slices| && Owners(slices, Midpoint(w)) <= 1
    ensures Owners(slices, Midpoint(w)) == 0 ==> Emitted(heard, slices, w) == 0
    ensures forall k :: 0 <= k < |slices| && slices[k].Contains(Midpoint(w)) ==>
      Emitted(heard, slices, w) == Spoken(heard[k], w)
    ensures Owners(slices, Midpoint(w)) == 1 ==> exists k :: 0 <= k < |slices| && slices[k].Contains(Midpoint(w))
  {
    if slices != [] {
      EmittedByOwner(heard[1..], slices[1..], w);
      GroupMultiplicity(heard[0], slices[0], w);
      assert slices == [slices[0]] + slices[1..] && heard == [heard[0]] + heard[1..];
      if exists k :: 0 <= k < |slices| - 1 && slices[1..][k].Contains(Midpoint(w)) {
        var k :| 0 <= k < |slices| - 1 && slices[1..][k].Contains(Midpoint(w));
        assert slices[k + 1].Contains(Midpoint(w));
        OwnerCounts(slices[1..], k, Midpoint(w));
      }
    }
  }

  lemma {:induction false} OwnerCounts(slices: seq<TimeInterval>, k: nat, p: int)
    requires k < |slices| && slices[k].Contains(p)
    ensures Owners(slices, p) >= 1
  {
    if k > 0 {
      OwnerCounts(slices[1..], k - 1, p);
    }
  }

  /** A word whose midpoint is speech or overlap, outside slivers and tails, comes out as often as the
  plausible transcripts of its one slice hold it; no other word comes out. */
  lemma WordsEmittedOnce(speech: seq<TimeInterval>, regions: seq<TimeInterval>, ts: seq<Treatment>, sp: Splitting,
                         heard: seq<seq<Recognition>>, w: Word)
    requires Separated(regions, 0) && |ts| == |regions| && sp.Valid()
    requires |heard| == |SessionSlices(speech, regions, ts, sp)|
    ensures var slices, p := SessionSlices(speech, regions, ts, sp), Midpoint(w);
      if (Covered(speech, p) || Covered(regions, p)) && !InSliver(speech, regions, p) && !InTail(regions, ts, sp, p)
      then exists k :: 0 <= k < |slices| && slices[k].Contains(p) && Emitted(heard, slices, w) == Spoken(heard[k], w)
      else Emitted(heard, slices, w) == 0
  {
    hide *;
    OwnedIff(speech, regions, ts, sp, Midpoint(w));
    EmittedByOwner(heard, SessionSlices(speech, regions, ts, sp), w);
  }
}
