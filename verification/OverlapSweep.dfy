/** The sweep over turn edges that finds where speech overlaps.

The loop tests one slot between consecutive edges at a time.  The result is the canonical list of
the milliseconds that lie in at least two turns.
*/
module OverlapSweep {
  import opened Timeline
  import opened Transcript

  function ActiveAt(turns: seq<Turn>, p: int): nat {
    if turns == [] then 0
    else (if turns[0].interval.Contains(p) then 1 else 0) + ActiveAt(turns[1..], p)
  }

  function ActiveIn(turns: seq<Turn>, slot: TimeInterval): nat {
    if turns == [] then 0
    else (if turns[0].interval.IntersectionMs(slot) > 0 then 1 else 0) + ActiveIn(turns[1..], slot)
  }

  predicate Increasing(s: seq<int>) {
    forall i, j :: 0 <= i < j < |s| ==> s[i] < s[j]
  }

  lemma ConsIncreasing(head: int, s: seq<int>, rest: seq<int>, x: int)
    requires s != [] && head == s[0] < x && Increasing(s) && Increasing(rest)
    requires forall y :: y in rest <==> y in s[1..] || y == x
    ensures Increasing([head] + rest)
    ensures forall y :: y in [head] + rest <==> y in s || y == x
  {
    assert s == [head] + s[1..];
    forall k | 0 <= k < |rest|
      ensures head < rest[k]
    {
      assert rest[k] in rest;
    }
  }

  /** Keep a strictly increasing list and add `x` to it unless it is there. */
  function AddEdge(x: int, s: seq<int>): (r: seq<int>)
    requires Increasing(s)
    ensures Increasing(r)
    ensures forall y :: y in r <==> y in s || y == x
  {
    if s == [] then [x]
    else if x < s[0] then [x] + s
    else if x == s[0] then s
    else
      var rest := AddEdge(x, s[1..]);
      ConsIncreasing(s[0], s, rest, x);
      [s[0]] + rest
  }

  ghost predicate EdgesOf(turns: seq<Turn>, edges: seq<int>) {
    && Increasing(edges)
    && (forall t :: t in turns ==> t.interval.start in edges && t.interval.end in edges)
    && (forall y :: y in edges ==> y >= 0)
  }

  /** `sorted({start, end of every turn})`. */
  function Edges(turns: seq<Turn>): (r: seq<int>)
    ensures EdgesOf(turns, r)
  {
    if turns == [] then []
    else AddEdge(turns[0].interval.start, AddEdge(turns[0].interval.end, Edges(turns[1..])))
  }

  /** No edge strictly inside the slot: every turn covers all of it or none of it. */
  lemma {:induction false} SlotIsUniform(turns: seq<Turn>, slot: TimeInterval, p: int)
    requires slot.Contains(p)
    requires forall t :: t in turns ==>
      && !(slot.start < t.interval.start < slot.end)
      && !(slot.start < t.interval.end < slot.end)
    ensures ActiveIn(turns, slot) == ActiveAt(turns, p)
  {
    if turns != [] {
      SlotIsUniform(turns[1..], slot, p);
    }
  }

  lemma {:induction false} NobodyOutside(turns: seq<Turn>, p: int)
    requires forall t :: t in turns ==> !t.interval.Contains(p)
    ensures ActiveAt(turns, p) == 0
  {
    if turns != [] {
      NobodyOutside(turns[1..], p);
    }
  }

  /** Outside the edges nobody speaks. */
  lemma OutsideEdges(turns: seq<Turn>, edges: seq<int>, p: int)
    requires EdgesOf(turns, edges)
    requires edges == [] || p < edges[0] || edges[|edges| - 1] <= p
    ensures ActiveAt(turns, p) == 0
  {
    assert forall y :: y in edges ==> edges[0] <= y <= edges[|edges| - 1];
    NobodyOutside(turns, p);
  }

  /** Between two consecutive edges the slot test counts the turns at every point. */
  lemma BetweenEdges(turns: seq<Turn>, edges: seq<int>, i: nat, slot: TimeInterval, p: int)
    requires EdgesOf(turns, edges)
    requires i + 1 < |edges| && slot == Interval(edges[i], edges[i + 1]) && slot.Contains(p)
    ensures ActiveIn(turns, slot) == ActiveAt(turns, p)
  {
    assert forall y :: y in edges ==> !(edges[i] < y < edges[i + 1]);
    SlotIsUniform(turns, slot, p);
  }

  lemma EdgesApart(turns: seq<Turn>, edges: seq<int>, i: nat)
    requires EdgesOf(turns, edges) && i + 1 < |edges|
    ensures 0 <= edges[0] <= edges[i] < edges[i + 1]
  {
    assert edges[0] in edges;
  }

  method OverlapRegions(turns: seq<Turn>) returns (regions: seq<TimeInterval>)
    ensures Separated(regions, 0)
    ensures forall p :: Covered(regions, p) <==> ActiveAt(turns, p) >= 2
  {
    hide Covered, ActiveAt, ActiveIn, EdgesOf, Edges, Merge;
    var edges := Edges(turns);
    var hits: seq<TimeInterval> := [];
    assert forall p :: !Covered(hits, p) by {
      HeadCovered(hits);
    }
    var i := 0;
    while i + 1 < |edges|
      invariant i == 0 || i < |edges|
      invariant edges == [] ==> hits == []
      invariant edges != [] ==> forall p :: Covered(hits, p) <==> edges[0] <= p < edges[i] && ActiveAt(turns, p) >= 2
    {
      EdgesApart(turns, edges, i);
      var slot: TimeInterval := Interval(edges[i], edges[i + 1]);
      var active := ActiveIn(turns, slot);
      ghost var before := hits;
      if active >= 2 {
        hits := hits + [slot];
      }
      forall p
        ensures Covered(hits, p) <==> edges[0] <= p < edges[i + 1] && ActiveAt(turns, p) >= 2
      {
        CoveredConcat(before, [slot], p);
        CoveredOne(slot, p);
        if slot.Contains(p) {
          BetweenEdges(turns, edges, i, slot, p);
        }
      }
      i := i + 1;
    }
    regions := MergeIntervals(hits, 0);
    MergeIsUnion(hits);
    HeadCovered(hits);
    forall p
      ensures Covered(regions, p) <==> ActiveAt(turns, p) >= 2
    {
      if |edges| == 0 || p < edges[0] || edges[|edges| - 1] <= p {
        OutsideEdges(turns, edges, p);
      }
    }
  }

  /** Two different turns at `p`. */
  ghost predicate TwoTurns(turns: seq<Turn>, p: int) {
    exists i, j :: 0 <= i < j < |turns| && turns[i].interval.Contains(p) && turns[j].interval.Contains(p)
  }

  lemma {:induction false} SomebodyActive(turns: seq<Turn>, p: int)
    ensures ActiveAt(turns, p) >= 1 <==> exists i :: 0 <= i < |turns| && turns[i].interval.Contains(p)
  {
    if turns != [] {
      SomebodyActive(turns[1..], p);
      if i :| 0 <= i < |turns| && turns[i].interval.Contains(p) {
        assert i > 0 ==> turns[1..][i - 1].interval.Contains(p);
      }
      if i :| 0 <= i < |turns[1..]| && turns[1..][i].interval.Contains(p) {
        assert turns[i + 1].interval.Contains(p);
      }
    }
  }

  lemma {:induction false} CountIsPair(turns: seq<Turn>, p: int)
    ensures ActiveAt(turns, p) >= 2 <==> TwoTurns(turns, p)
  {
    if turns != [] {
      var rest := turns[1..];
      CountIsPair(rest, p);
      SomebodyActive(rest, p);
      if TwoTurns(rest, p) {
        var i, j :| 0 <= i < j < |rest| && rest[i].interval.Contains(p) && rest[j].interval.Contains(p);
        assert turns[i + 1].interval.Contains(p) && turns[j + 1].interval.Contains(p);
      }
      if turns[0].interval.Contains(p) && ActiveAt(rest, p) >= 1 {
        var j :| 0 <= j < |rest| && rest[j].interval.Contains(p);
        assert turns[j + 1].interval.Contains(p);
      }
      if TwoTurns(turns, p) {
        var i, j :| 0 <= i < j < |turns| && turns[i].interval.Contains(p) && turns[j].interval.Contains(p);
        assert rest[j - 1].interval.Contains(p);
        assert i > 0 ==> rest[i - 1].interval.Contains(p);
      }
    }
  }

  /** Two different speakers at `p`. */
  ghost predicate TwoClusters(turns: seq<Turn>, p: int) {
    exists a, b :: a in turns && b in turns && a.cluster != b.cluster
      && a.interval.Contains(p) && b.interval.Contains(p)
  }

  /** At `p`, no speaker has two turns. */
  ghost predicate OneTurnEach(turns: seq<Turn>, p: int) {
    forall i, j :: 0 <= i < j < |turns| && turns[i].interval.Contains(p) && turns[j].interval.Contains(p)
      ==> turns[i].cluster != turns[j].cluster
  }

  /** At one point, the sweep tells concurrent speakers from a single one exactly when no speaker has
  two turns there, or another speaker speaks as well. */
  lemma SweepExactAtIff(turns: seq<Turn>, p: int)
    ensures (ActiveAt(turns, p) >= 2 <==> TwoClusters(turns, p)) <==> OneTurnEach(turns, p) || TwoClusters(turns, p)
  {
    CountIsPair(turns, p);
    if TwoTurns(turns, p) {
      var i, j :| 0 <= i < j < |turns| && turns[i].interval.Contains(p) && turns[j].interval.Contains(p);
      assert turns[i] in turns && turns[j] in turns;
    }
    if TwoClusters(turns, p) {
      var a, b :| a in turns && b in turns && a.cluster != b.cluster
        && a.interval.Contains(p) && b.interval.Contains(p);
      var i :| 0 <= i < |turns| && turns[i] == a;
      var j :| 0 <= j < |turns| && turns[j] == b;
      assert i < j || j < i;
    }
  }

  /** The intervals of everybody else's turns. */
  function OthersThan(turns: seq<Turn>, cluster: string): seq<TimeInterval> {
    if turns == [] then []
    else
      OthersThan(turns[..|turns| - 1], cluster)
      + (if turns[|turns| - 1].cluster != cluster then [turns[|turns| - 1].interval] else [])
  }

  lemma {:induction false} OthersCover(turns: seq<Turn>, cluster: string, p: int)
    ensures Covered(OthersThan(turns, cluster), p)
       <==> exists t :: t in turns && t.cluster != cluster && t.interval.Contains(p)
  {
    if turns == [] {
      HeadCovered([]);
    } else {
      var init, last := turns[..|turns| - 1], turns[|turns| - 1];
      OthersCover(init, cluster, p);
      assert turns == init + [last];
      if last.cluster != cluster {
        CoveredConcat(OthersThan(init, cluster), [last.interval], p);
        CoveredOne(last.interval, p);
      } else {
        assert OthersThan(turns, cluster) == OthersThan(init, cluster);
      }
    }
  }

  /** Two turns of one speaker cross, and somewhere in their intersection nobody else speaks. */
  predicate CrossesAlone(turns: seq<Turn>, i: nat, j: nat)
    requires i < j < |turns|
  {
    var common := Clamp(turns[i].interval, turns[j].interval);
    turns[i].cluster == turns[j].cluster && common.Some?
    && Subtract([common.value], OthersThan(turns, turns[i].cluster)) != []
  }

  lemma SubtractEmptyIff(x: TimeInterval, holes: seq<TimeInterval>)
    ensures Subtract([x], holes) == [] <==> forall p :: x.Contains(p) ==> Covered(holes, p)
  {
    SubtractIsDifference([x], holes);
    var rest := Subtract([x], holes);
    forall p
      ensures Covered(rest, p) <==> x.Contains(p) && !Covered(holes, p)
    {
      CoveredOne(x, p);
    }
    hide Subtract;
    if rest != [] {
      assert rest[0].Contains(rest[0].start) && Covered(rest, rest[0].start);
    } else {
      HeadCovered(rest);
    }
  }

  lemma CrossesAloneIff(turns: seq<Turn>, i: nat, j: nat)
    requires i < j < |turns|
    ensures CrossesAlone(turns, i, j) <==>
      turns[i].cluster == turns[j].cluster
      && exists p :: turns[i].interval.Contains(p) && turns[j].interval.Contains(p)
                     && !Covered(OthersThan(turns, turns[i].cluster), p)
  {
    var common := Clamp(turns[i].interval, turns[j].interval);
    if common.Some? {
      SubtractEmptyIff(common.value, OthersThan(turns, turns[i].cluster));
      hide Covered, Subtract, OthersThan;
      assert forall p :: common.value.Contains(p) <==> turns[i].interval.Contains(p) && turns[j].interval.Contains(p);
    }
  }

  lemma OneTurnOrOthers(turns: seq<Turn>, i: nat, p: int)
    requires i < |turns| && turns[i].interval.Contains(p)
    ensures TwoClusters(turns, p) <==> Covered(OthersThan(turns, turns[i].cluster), p)
  {
    OthersCover(turns, turns[i].cluster, p);
    assert turns[i] in turns;
  }

  /** The sweep reports exactly concurrent speakers on a whole recording exactly when no speaker's
  turns cross where nobody else speaks. */
  lemma SweepExactIff(turns: seq<Turn>)
    ensures (forall p :: ActiveAt(turns, p) >= 2 <==> TwoClusters(turns, p))
       <==> (forall i: nat, j: nat :: i < j < |turns| ==> !CrossesAlone(turns, i, j))
  {
    hide Covered, OthersThan, ActiveAt, CrossesAlone, TwoClusters;
    if forall p :: ActiveAt(turns, p) >= 2 <==> TwoClusters(turns, p) {
      forall i: nat, j: nat | i < j < |turns|
        ensures !CrossesAlone(turns, i, j)
      {
        NoLoneCrossing(turns, i, j);
      }
    }
    if forall i: nat, j: nat :: i < j < |turns| ==> !CrossesAlone(turns, i, j) {
      forall p
        ensures ActiveAt(turns, p) >= 2 <==> TwoClusters(turns, p)
      {
        NoCrossingExact(turns, p);
      }
    }
  }

  lemma NoLoneCrossing(turns: seq<Turn>, i: nat, j: nat)
    requires forall p :: ActiveAt(turns, p) >= 2 <==> TwoClusters(turns, p)
    requires i < j < |turns|
    ensures !CrossesAlone(turns, i, j)
  {
    CrossesAloneIff(turns, i, j);
    hide Covered, OthersThan, ActiveAt, CrossesAlone, TwoClusters;
    forall p | turns[i].interval.Contains(p) && turns[j].interval.Contains(p)
      ensures Covered(OthersThan(turns, turns[i].cluster), p)
    {
      CountIsPair(turns, p);
      OneTurnOrOthers(turns, i, p);
    }
  }

  lemma NoCrossingExact(turns: seq<Turn>, p: int)
    requires forall i: nat, j: nat :: i < j < |turns| ==> !CrossesAlone(turns, i, j)
    ensures ActiveAt(turns, p) >= 2 <==> TwoClusters(turns, p)
  {
    SweepExactAtIff(turns, p);
    hide Covered, OthersThan, ActiveAt, CrossesAlone;
    if !OneTurnEach(turns, p) {
      var i: nat, j: nat :| i < j < |turns| && turns[i].interval.Contains(p) && turns[j].interval.Contains(p)
        && turns[i].cluster == turns[j].cluster;
      CrossesAloneIff(turns, i, j);
      OneTurnOrOthers(turns, i, p);
      assert !CrossesAlone(turns, i, j);
    }
  }

  /** The slot test never looks at the cluster: one speaker with two crossing turns is an overlap. */
  lemma OneSpeakerCanOverlap()
    ensures var turns := [Turn("a", Interval(0, 10)), Turn("a", Interval(5, 15))];
      ActiveAt(turns, 7) >= 2 && !TwoClusters(turns, 7)
  {
    var turns := [Turn("a", Interval(0, 10)), Turn("a", Interval(5, 15))];
    assert ActiveAt(turns[1..], 7) == 1;
  }
}
