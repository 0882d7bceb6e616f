/** The final pass: which provisional segment each final one replaces. */
module Finals {
  import opened DedupKeys
  import opened Options
  import Timeline

  /** A provisional segment already delivered. */
  datatype Provisional = Provisional(id: string, interval: Timeline.TimeInterval, track: Option<nat>)

  datatype Final = Final(interval: Timeline.TimeInterval, speaker: string, track: Option<nat>, body: string) {
    function Dedup(): string {
      DedupKey(interval.start, interval.end, speaker, track)
    }
  }

  /** Equal times, speaker and track. */
  predicate SameSlot(f: Final, g: Final) {
    f.interval == g.interval && f.speaker == g.speaker && f.track == g.track
  }

  lemma SameDedupIff(f: Final, g: Final)
    ensures f.Dedup() == g.Dedup() <==> SameSlot(f, g)
  {
    DedupKeyInjective(f.interval.start, f.interval.end, f.speaker, f.track,
                      g.interval.start, g.interval.end, g.speaker, g.track);
    hide DedupKey;
  }

  // ---- Which provisional a final replaces -------------------------------------------------

  /** Not taken yet, and overlapping in time. */
  predicate Candidate(e: Provisional, f: Final, used: set<string>) {
    e.id !in used && e.interval.IntersectionMs(f.interval) > 0
  }

  /** Same track first, then the larger overlap. */
  predicate Better(a: Provisional, b: Provisional, f: Final) {
    || (a.track == f.track && b.track != f.track)
    || ((a.track == f.track <==> b.track == f.track)
        && a.interval.IntersectionMs(f.interval) > b.interval.IntersectionMs(f.interval))
  }

  /** The `i`-th provisional is the first of the best candidates. */
  ghost predicate BestAt(emitted: seq<Provisional>, f: Final, used: set<string>, i: int) {
    && 0 <= i < |emitted| && Candidate(emitted[i], f, used)
    && (forall j :: 0 <= j < |emitted| && Candidate(emitted[j], f, used) ==> !Better(emitted[j], emitted[i], f))
    && (forall j :: 0 <= j < i && Candidate(emitted[j], f, used) ==> Better(emitted[i], emitted[j], f))
  }

  ghost predicate NoCandidate(emitted: seq<Provisional>, f: Final, used: set<string>) {
    forall j :: 0 <= j < |emitted| ==> !Candidate(emitted[j], f, used)
  }

  ghost predicate Choice(emitted: seq<Provisional>, f: Final, used: set<string>, r: Option<string>) {
    if r.None? then NoCandidate(emitted, f, used)
    else exists i :: BestAt(emitted, f, used, i) && emitted[i].id == r.value
  }

  lemma BestAtUnique(emitted: seq<Provisional>, f: Final, used: set<string>, i: int, j: int)
    requires BestAt(emitted, f, used, i) && BestAt(emitted, f, used, j)
    ensures i == j
  {
    hide Better, Candidate;
  }

  /** The rule decides: no candidate, or one identifier. */
  lemma ChoiceUnique(emitted: seq<Provisional>, f: Final, used: set<string>, r: Option<string>, r': Option<string>)
    requires Choice(emitted, f, used, r) && Choice(emitted, f, used, r')
    ensures r == r'
  {
    hide Better, Candidate;
    if r.Some? && r'.Some? {
      var i :| BestAt(emitted, f, used, i) && emitted[i].id == r.value;
      var j :| BestAt(emitted, f, used, j) && emitted[j].id == r'.value;
      BestAtUnique(emitted, f, used, i, j);
    }
  }

  /** Best so far over a prefix; `-1` while there is no candidate. */
  ghost predicate BestSoFar(emitted: seq<Provisional>, f: Final, used: set<string>, best: int) {
    if best == -1 then NoCandidate(emitted, f, used) else BestAt(emitted, f, used, best)
  }

  lemma BestNext(emitted: seq<Provisional>, f: Final, used: set<string>, best: int, e: Provisional)
    requires BestSoFar(emitted, f, used, best)
    ensures BestSoFar(emitted + [e], f, used,
                      if Candidate(e, f, used) && (best == -1 || Better(e, emitted[best], f)) then |emitted| else best)
  {
    var all := emitted + [e];
    assert forall j :: 0 <= j < |emitted| ==> all[j] == emitted[j];
    assert all[|emitted|] == e;
    if best != -1 && Candidate(e, f, used) && Better(e, emitted[best], f) {
      forall j | 0 <= j < |emitted| && Candidate(emitted[j], f, used)
        ensures Better(e, emitted[j], f)
      {
        assert !Better(emitted[j], emitted[best], f);
      }
    }
  }

  method SupersededEventId(emitted: seq<Provisional>, f: Final, used: set<string>) returns (r: Option<string>)
    ensures Choice(emitted, f, used, r)
  {
    var best := -1;
    var bestTrack, bestOverlap := false, 0;
    for i := 0 to |emitted|
      invariant -1 <= best < i
      invariant BestSoFar(emitted[..i], f, used, best)
      invariant best == -1 ==> !bestTrack && bestOverlap == 0
      invariant best >= 0 ==> bestTrack == (emitted[best].track == f.track)
                              && bestOverlap == emitted[best].interval.IntersectionMs(f.interval)
    {
      assert emitted[..i + 1] == emitted[..i] + [emitted[i]];
      BestNext(emitted[..i], f, used, best, emitted[i]);
      hide BestSoFar;
      var overlap := emitted[i].interval.IntersectionMs(f.interval);
      if emitted[i].id in used || overlap <= 0 {
        continue;
      }
      var sameTrack := emitted[i].track == f.track;
      if (sameTrack && !bestTrack) || (sameTrack == bestTrack && overlap > bestOverlap) {
        best, bestTrack, bestOverlap := i, sameTrack, overlap;
      }
    }
    assert emitted[..|emitted|] == emitted;
    if best == -1 {
      r := None;
    } else {
      assert BestAt(emitted, f, used, best);
      r := Some(emitted[best].id);
    }
  }

  // ---- The whole final pass ---------------------------------------------------------------

  function Taken(chosen: seq<Option<string>>): set<string> {
    if chosen == [] then {}
    else Taken(chosen[..|chosen| - 1])
         + (if chosen[|chosen| - 1].Some? then {chosen[|chosen| - 1].value} else {})
  }

  /** Every final takes the best provisional that the finals before it left. */
  ghost predicate Paired(emitted: seq<Provisional>, finals: seq<Final>, chosen: seq<Option<string>>) {
    |chosen| == |finals|
    && forall k :: 0 <= k < |finals| ==> Choice(emitted, finals[k], Taken(chosen[..k]), chosen[k])
  }

  method PairFinals(emitted: seq<Provisional>, finals: seq<Final>) returns (chosen: seq<Option<string>>)
    ensures Paired(emitted, finals, chosen)
  {
    var used: set<string> := {};
    chosen := [];
    PairedNone(emitted);
    hide Choice, Paired, Taken;
    assert finals[..0] == [];
    for k := 0 to |finals|
      invariant Paired(emitted, finals[..k], chosen) && used == Taken(chosen)
    {
      var r := SupersededEventId(emitted, finals[k], used);
      PairedNext(emitted, finals[..k], chosen, finals[k], r);
      assert finals[..k + 1] == finals[..k] + [finals[k]];
      TakenNext(chosen, r);
      chosen := chosen + [r];
      if r.Some? {
        used := used + {r.value};
      }
    }
    assert finals[..|finals|] == finals;
  }

  lemma PairedNone(emitted: seq<Provisional>)
    ensures Paired(emitted, [], []) && Taken([]) == {}
  {
  }

  lemma TakenNext(chosen: seq<Option<string>>, r: Option<string>)
    ensures Taken(chosen + [r]) == Taken(chosen) + (if r.Some? then {r.value} else {})
  {
    assert (chosen + [r])[..|chosen|] == chosen;
  }

  lemma PairedNext(emitted: seq<Provisional>, finals: seq<Final>, chosen: seq<Option<string>>,
                   f: Final, r: Option<string>)
    requires Paired(emitted, finals, chosen) && Choice(emitted, f, Taken(chosen), r)
    ensures Paired(emitted, finals + [f], chosen + [r])
  {
    hide Choice, Taken;
    forall k | 0 <= k <= |finals|
      ensures Choice(emitted, (finals + [f])[k], Taken((chosen + [r])[..k]), (chosen + [r])[k])
    {
      assert k < |finals| ==> (chosen + [r])[..k] == chosen[..k];
      assert k == |finals| ==> (chosen + [r])[..k] == chosen;
    }
  }

  lemma {:induction false} TakenHas(chosen: seq<Option<string>>, j: int)
    requires 0 <= j < |chosen| && chosen[j].Some?
    ensures chosen[j].value in Taken(chosen)
  {
    if j < |chosen| - 1 {
      TakenHas(chosen[..|chosen| - 1], j);
    }
  }

  ghost predicate Injective(chosen: seq<Option<string>>) {
    forall j, k :: 0 <= j < k < |chosen| && chosen[j].Some? ==> chosen[k] != chosen[j]
  }

  lemma ChoiceIsCandidate(emitted: seq<Provisional>, f: Final, used: set<string>, id: string)
    requires Choice(emitted, f, used, Some(id))
    ensures id !in used
    ensures exists i :: 0 <= i < |emitted| && emitted[i].id == id && emitted[i].interval.IntersectionMs(f.interval) > 0
  {
    var i :| BestAt(emitted, f, used, i) && emitted[i].id == id;
    assert Candidate(emitted[i], f, used);
  }

  /** No two finals replace the same provisional, and each replaces one that overlaps it. */
  lemma PairingIsInjective(emitted: seq<Provisional>, finals: seq<Final>, chosen: seq<Option<string>>)
    requires Paired(emitted, finals, chosen)
    ensures Injective(chosen)
    ensures forall k :: 0 <= k < |chosen| && chosen[k].Some? ==>
      exists i :: 0 <= i < |emitted| && emitted[i].id == chosen[k].value
                  && emitted[i].interval.IntersectionMs(finals[k].interval) > 0
  {
    hide Choice;
    forall j, k | 0 <= j < k < |chosen| && chosen[j].Some?
      ensures chosen[k] != chosen[j]
    {
      assert chosen[..k][j] == chosen[j];
      TakenHas(chosen[..k], j);
      if chosen[k].Some? {
        ChoiceIsCandidate(emitted, finals[k], Taken(chosen[..k]), chosen[k].value);
      }
    }
    forall k | 0 <= k < |chosen| && chosen[k].Some?
      ensures exists i :: 0 <= i < |emitted| && emitted[i].id == chosen[k].value
                          && emitted[i].interval.IntersectionMs(finals[k].interval) > 0
    {
      ChoiceIsCandidate(emitted, finals[k], Taken(chosen[..k]), chosen[k].value);
    }
  }
}
