/** The second pass over temporary speakers: each that links to a known speaker is merged into it.

The linking decisions are an input: `links` maps a temporary speaker to the speaker it links to.
*/
module Reconciliation {
  import opened MergeForest
  import opened Options
  import opened SessionState
  import opened SessionSafety
  import opened SessionRuns
  import opened SpeakerSession
  import opened Speakers

  const REASON := "overlap_start_reconciliation"

  function Provisionals(ids: seq<Id>, speakers: Roster): (r: seq<Id>)
    requires forall id :: id in ids ==> id in speakers
    ensures forall id :: id in r <==> id in ids && speakers[id].machine.state.PROVISIONAL?
    ensures (forall i, j :: 0 <= i < j < |ids| ==> ids[i] != ids[j])
        ==> (forall i, j :: 0 <= i < j < |r| ==> r[i] != r[j])
  {
    if ids == [] then []
    else
      var last := ids[|ids| - 1];
      assert ids == ids[..|ids| - 1] + [last];
      Provisionals(ids[..|ids| - 1], speakers) + (if speakers[last].machine.state.PROVISIONAL? then [last] else [])
  }

  /** What the pass does to one temporary speaker. */
  ghost function Settle(s: Session, id: Id, links: map<Id, Id>): (r: Session)
    requires Sane(s) && id in s.speakers
    ensures Sane(r)
  {
    if s.speakers[id].voice.current.None? || id !in links then s
    else
      MergeSane(s, id, links[id], REASON);
      DoMerge(s, id, links[id], REASON)
  }

  lemma SettleKeys(s: Session, id: Id, links: map<Id, Id>)
    requires Sane(s) && id in s.speakers
    ensures Settle(s, id, links).speakers.Keys == s.speakers.Keys
  {
    if id in links && CanMerge(s, id, links[id]) {
      CanMergeRoots(s, id, links[id]);
      MergeRootsMade(s, Get(s, id), Get(s, links[id]), REASON);
    }
    hide Sane, MergeRoots, CanMerge;
  }

  ghost function SettleAll(s: Session, ids: seq<Id>, links: map<Id, Id>): (r: Session)
    requires Sane(s) && forall id :: id in ids ==> id in s.speakers
    ensures Sane(r)
    decreases |ids|
  {
    if ids == [] then s
    else
      SettleKeys(s, ids[0], links);
      SettleAll(Settle(s, ids[0], links), ids[1..], links)
  }

  /** The temporary speakers are different active speakers, and link to others than themselves. */
  ghost predicate Linkable(s: Session, ids: seq<Id>, links: map<Id, Id>)
    requires Sane(s)
  {
    && (forall i, j :: 0 <= i < j < |ids| ==> ids[i] != ids[j])
    && (forall id :: id in ids ==> LinksOutside(s, ids, links, id))
  }

  ghost predicate LinksOutside(s: Session, ids: seq<Id>, links: map<Id, Id>, id: Id)
    requires Sane(s)
  {
    IsActive(s.speakers, id) && (id in links ==> links[id] in s.speakers && Get(s, links[id]) !in ids)
  }

  /** The link is taken: there is evidence, and the target is not among the stored identities. */
  ghost predicate Accepted(s: Session, id: Id, links: map<Id, Id>)
    requires Sane(s) && id in s.speakers && (id in links ==> links[id] in s.speakers)
  {
    && s.speakers[id].voice.current.Some? && id in links
    && Get(s, links[id]) !in s.speakers[id].cannotLink
  }

  lemma SettleIs(s: Session, id: Id, links: map<Id, Id>)
    requires Sane(s) && IsActive(s.speakers, id) && (id in links ==> links[id] in s.speakers && Get(s, links[id]) != id)
    ensures Accepted(s, id, links) ==>
      Roots(s, id, Get(s, links[id])) && Settle(s, id, links) == MergeRoots(s, id, Get(s, links[id]), REASON)
    ensures !Accepted(s, id, links) ==> Settle(s, id, links) == s
  {
    if id in links {
      GuardIs(s, id, links[id]);
    }
    hide Sane, MergeRoots, Get, CanMerge, Roots;
  }

  lemma MergeEffect(s: Session, src: Id, tgt: Id, reason: string)
    requires Roots(s, src, tgt)
    ensures var s' := MergeRoots(s, src, tgt, reason);
      && s'.speakers.Keys == s.speakers.Keys && s'.speakers[src].mergedInto == Some(tgt)
      && (forall x :: x in s.speakers && x != src ==> s'.speakers[x].mergedInto == s.speakers[x].mergedInto)
      && (forall x :: x in s.speakers && x != src && x != tgt ==> s'.speakers[x] == s.speakers[x])
  {
    MergeRootsMade(s, src, tgt, reason);
    hide MergeRoots;
  }

  /** What one merge does to the links, and what it leaves alone. */
  lemma SettleEffect(s: Session, id: Id, links: map<Id, Id>)
    requires Sane(s) && IsActive(s.speakers, id) && (id in links ==> links[id] in s.speakers && Get(s, links[id]) != id)
    ensures var s' := Settle(s, id, links);
      && s'.speakers.Keys == s.speakers.Keys
      && (if Accepted(s, id, links) then s'.speakers[id].mergedInto == Some(Get(s, links[id])) else s' == s)
      && (forall x :: x in s.speakers && x != id ==> s'.speakers[x].mergedInto == s.speakers[x].mergedInto)
      && (forall x :: x in s.speakers && x != id && (id in links ==> x != Get(s, links[id])) ==>
            s'.speakers[x] == s.speakers[x])
  {
    SettleIs(s, id, links);
    assert Accepted(s, id, links) ==> id in links;
    hide Sane, MergeRoots, Get, CanMerge, Roots, Accepted, Settle;
    if Accepted(s, id, links) {
      MergeEffect(s, id, Get(s, links[id]), REASON);
    }
  }

  lemma GuardIs(s: Session, id: Id, target: Id)
    requires Sane(s) && IsActive(s.speakers, id) && target in s.speakers && Get(s, target) != id
    ensures CanMerge(s, id, target) <==> Get(s, target) !in s.speakers[id].cannotLink
    ensures Get(s, id) == id && Roots(s, id, Get(s, target))
  {
    GetOfRoot(s, id);
    BothRoots(s, id, target);
    hide Sane, Get;
  }

  lemma SettleResolves(s: Session, id: Id, links: map<Id, Id>, x: Id)
    requires Sane(s) && IsActive(s.speakers, id) && (id in links ==> links[id] in s.speakers && Get(s, links[id]) != id)
    requires x in s.speakers && Get(s, x) != id
    ensures x in Settle(s, id, links).speakers && Get(Settle(s, id, links), x) == Get(s, x)
  {
    SettleKeys(s, id, links);
    if id in links && s.speakers[id].voice.current.Some? {
      GuardIs(s, id, links[id]);
      var tgt := Get(s, links[id]);
      if CanMerge(s, id, links[id]) {
        MergeRootsRoster(s, id, tgt, REASON);
        RootsAreRoots(s, id, tgt);
        InLinks(s, x);
        LinkKeepsForest(LinksOf(s.speakers), id, tgt);
      }
    }
    hide MergeRoots, CanMerge, LinksOf, StoredOf, LabelsOf, Absorb, Ranked, Forest;
  }

  lemma RestUnchanged(s: Session, ids: seq<Id>, links: map<Id, Id>)
    requires Sane(s) && ids != [] && Linkable(s, ids, links) && ids[0] in s.speakers
    ensures forall id :: id in ids[1..] ==>
      id in Settle(s, ids[0], links).speakers && Settle(s, ids[0], links).speakers[id] == s.speakers[id]
  {
    assert LinksOutside(s, ids, links, ids[0]);
    assert ids[0] in ids;
    assert forall id :: id in ids[1..] ==> id in ids && id != ids[0] && LinksOutside(s, ids, links, id);
    hide Sane, Settle, Get, Accepted, Linkable;
    SettleEffect(s, ids[0], links);
  }

  lemma TargetsUnchanged(s: Session, ids: seq<Id>, links: map<Id, Id>, id: Id)
    requires Sane(s) && ids != [] && Linkable(s, ids, links) && ids[0] in s.speakers && id in ids[1..] && id in links
    ensures links[id] in Settle(s, ids[0], links).speakers
      && Get(Settle(s, ids[0], links), links[id]) == Get(s, links[id])
    ensures Get(s, links[id]) !in ids
  {
    assert LinksOutside(s, ids, links, ids[0]) && LinksOutside(s, ids, links, id);
    assert ids[0] in ids && id in ids;
    hide Sane, Settle, Get, Accepted, Linkable;
    SettleResolves(s, ids[0], links, links[id]);
  }

  lemma SettleKeepsLinkable(s: Session, ids: seq<Id>, links: map<Id, Id>)
    requires Sane(s) && ids != [] && Linkable(s, ids, links) && ids[0] in s.speakers
    ensures Linkable(Settle(s, ids[0], links), ids[1..], links)
    ensures forall id :: id in ids[1..] ==>
      id in Settle(s, ids[0], links).speakers && Settle(s, ids[0], links).speakers[id] == s.speakers[id]
    ensures forall id :: id in ids[1..] && id in links ==>
      links[id] in Settle(s, ids[0], links).speakers && Get(Settle(s, ids[0], links), links[id]) == Get(s, links[id])
  {
    RestUnchanged(s, ids, links);
    hide Sane, Settle, Get, Accepted, LinksOutside;
    forall id | id in ids[1..]
      ensures LinksOutside(Settle(s, ids[0], links), ids[1..], links, id)
      ensures id in links ==>
        links[id] in Settle(s, ids[0], links).speakers && Get(Settle(s, ids[0], links), links[id]) == Get(s, links[id])
    {
      OneStaysOutside(s, ids, links, id);
    }
  }

  lemma OneStaysOutside(s: Session, ids: seq<Id>, links: map<Id, Id>, id: Id)
    requires Sane(s) && ids != [] && Linkable(s, ids, links) && ids[0] in s.speakers && id in ids[1..]
    requires id in Settle(s, ids[0], links).speakers && Settle(s, ids[0], links).speakers[id] == s.speakers[id]
    ensures LinksOutside(Settle(s, ids[0], links), ids[1..], links, id)
    ensures id in links ==>
      links[id] in Settle(s, ids[0], links).speakers && Get(Settle(s, ids[0], links), links[id]) == Get(s, links[id])
  {
    assert id in ids && LinksOutside(s, ids, links, id);
    hide Sane, Settle, Get, Accepted, Linkable;
    if id in links {
      TargetsUnchanged(s, ids, links, id);
    }
  }

  lemma FirstOutside(s: Session, ids: seq<Id>, links: map<Id, Id>)
    requires Sane(s) && ids != [] && Linkable(s, ids, links)
    ensures IsActive(s.speakers, ids[0])
    ensures ids[0] in links ==> links[ids[0]] in s.speakers && Get(s, links[ids[0]]) != ids[0]
  {
    assert LinksOutside(s, ids, links, ids[0]);
    hide Sane, Get;
  }

  /** Whoever is not visited keeps its link. */
  lemma {:induction false} SettleAllLeaves(s: Session, ids: seq<Id>, links: map<Id, Id>, x: Id)
    requires Sane(s) && Linkable(s, ids, links) && x in s.speakers && x !in ids
    requires forall id :: id in ids ==> id in s.speakers
    ensures x in SettleAll(s, ids, links).speakers
    ensures SettleAll(s, ids, links).speakers[x].mergedInto == s.speakers[x].mergedInto
    decreases |ids|
  {
    if ids != [] {
      FirstOutside(s, ids, links);
      SettleEffect(s, ids[0], links);
      SettleKeepsLinkable(s, ids, links);
      hide Sane, Settle, Get, Accepted, Linkable;
      SettleAllLeaves(Settle(s, ids[0], links), ids[1..], links, x);
    }
  }

  lemma LinkableKnown(s: Session, ids: seq<Id>, links: map<Id, Id>)
    requires Sane(s) && Linkable(s, ids, links)
    ensures forall id :: id in ids ==> id in s.speakers && (id in links ==> links[id] in s.speakers)
  {
  }

  /** The pass merges exactly the temporary speakers with evidence and a link whose target is not among
  the identities they store at the start: what happens to the others on the way does not matter. */
  lemma {:induction false} ReconciliationIsExact(s: Session, ids: seq<Id>, links: map<Id, Id>, id: Id)
    requires Sane(s) && Linkable(s, ids, links) && id in ids
    ensures forall x :: x in ids ==> x in s.speakers
    ensures id in SettleAll(s, ids, links).speakers && (id in links ==> links[id] in s.speakers)
    ensures SettleAll(s, ids, links).speakers[id].mergedInto
         == if Accepted(s, id, links) then Some(Get(s, links[id])) else None
    decreases |ids|
  {
    LinkableKnown(s, ids, links);
    FirstOutside(s, ids, links);
    SettleEffect(s, ids[0], links);
    SettleKeepsLinkable(s, ids, links);
    var s' := Settle(s, ids[0], links);
    assert id != ids[0] ==> id in ids[1..];
    if id == ids[0] {
      assert IsActive(s.speakers, id);
      assert id !in ids[1..];
      LinkableKnown(s', ids[1..], links);
      hide Sane, Settle, Get, Linkable;
      SettleAllLeaves(s', ids[1..], links, id);
    } else {
      hide Sane, Settle, Get, Linkable;
      ReconciliationIsExact(s', ids[1..], links, id);
    }
  }

  /** Two temporary speakers of one crop, declared to be different people, become one speaker exactly
  when both link to it and neither stores it: that they store each other does not matter. */
  lemma ConcurrentSourcesJoinIff(s: Session, ids: seq<Id>, links: map<Id, Id>, a: Id, b: Id)
    requires Sane(s) && Linkable(s, ids, links) && a in ids && b in ids && a != b && a in links && b in links
    requires links[a] in s.speakers && links[b] in s.speakers && Get(s, links[a]) == Get(s, links[b])
    requires a in s.speakers && b in s.speakers
    requires b in s.speakers[a].cannotLink && a in s.speakers[b].cannotLink
    requires s.speakers[a].voice.current.Some? && s.speakers[b].voice.current.Some?
    ensures forall x :: x in ids ==> x in s.speakers
    ensures var s' := SettleAll(s, ids, links);
      && a in s'.speakers && b in s'.speakers
      && (Get(s', a) == Get(s', b) <==>
            Get(s, links[a]) !in s.speakers[a].cannotLink && Get(s, links[b]) !in s.speakers[b].cannotLink)
  {
    var g := Get(s, links[a]);
    ReconciliationIsExact(s, ids, links, a);
    ReconciliationIsExact(s, ids, links, b);
    var s' := SettleAll(s, ids, links);
    assert LinksOutside(s, ids, links, a);
    assert g !in ids && IsActive(s.speakers, g);
    SettleAllLeaves(s, ids, links, g);
    ResolveOne(s', a, g);
    ResolveOne(s', b, g);
    hide Sane, SettleAll, Get, Linkable;
  }

  lemma ResolveOne(s: Session, id: Id, g: Id)
    requires Sane(s) && id in s.speakers && g in s.speakers && s.speakers[g].mergedInto.None?
    ensures s.speakers[id].mergedInto == Some(g) ==> Get(s, id) == g
    ensures s.speakers[id].mergedInto == None ==> Get(s, id) == id
  {
    assert LinksOf(s.speakers)[id] == s.speakers[id].mergedInto;
  }

  /** The pass over the session's provisional speakers. */
  method ReconcileTemporarySpeakers(state: SessionSpeakerState, links: map<Id, Id>)
    requires Sane(state.State())
    requires forall id :: id in links ==> links[id] in state.speakers
    modifies state
    ensures Sane(state.State())
    ensures forall id :: id in ActiveIds(old(state.State())) ==> id in old(state.speakers)
    ensures var ids := Provisionals(ActiveIds(old(state.State())), old(state.speakers));
      && (forall id :: id in ids ==> id in old(state.speakers))
      && state.State() == SettleAll(old(state.State()), ids, links)
  {
    ActiveKnown(state.order, state.speakers, None);
    hide Sane, Active, Settle, SettleAll;
    var ids := Provisionals(Active(state.order, state.speakers, None), state.speakers);
    SettleEach(state, ids, links);
  }

  method SettleEach(state: SessionSpeakerState, ids: seq<Id>, links: map<Id, Id>)
    requires Sane(state.State()) && forall id :: id in ids ==> id in state.State().speakers
    requires forall id :: id in links ==> links[id] in state.State().speakers
    modifies state
    ensures Sane(state.State()) && state.State() == SettleAll(old(state.State()), ids, links)
  {
    hide *;
    ghost var s := state.State();
    var k := 0;
    assert ids[0..] == ids;
    while k < |ids|
      invariant 0 <= k <= |ids|
      invariant Sane(state.State()) && state.State().speakers.Keys == s.speakers.Keys
      invariant SettleAll(state.State(), ids[k..], links) == SettleAll(s, ids, links)
    {
      NextSettled(state.State(), ids, k, links);
      SettleOne(state, ids[k], links);
      k := k + 1;
    }
    SettleNobody(state.State(), links);
    assert ids[k..] == [];
  }

  method SettleOne(state: SessionSpeakerState, id: Id, links: map<Id, Id>)
    requires Sane(state.State()) && id in state.State().speakers
    requires forall x :: x in links ==> links[x] in state.State().speakers
    modifies state
    ensures Sane(state.State()) && state.State() == Settle(old(state.State()), id, links)
    ensures state.State().speakers.Keys == old(state.State()).speakers.Keys
  {
    SettleKeys(state.State(), id, links);
    hide Sane, CanMerge, MergeRoots;
    if state.speakers[id].voice.current.None? || id !in links {
      return;
    }
    var ok := state.MergeSpeakers(id, links[id], REASON);
  }

  lemma NextSettled(s: Session, ids: seq<Id>, k: nat, links: map<Id, Id>)
    requires Sane(s) && k < |ids| && forall id :: id in ids ==> id in s.speakers
    ensures forall id :: id in ids ==> id in Settle(s, ids[k], links).speakers
    ensures SettleAll(s, ids[k..], links) == SettleAll(Settle(s, ids[k], links), ids[k + 1..], links)
  {
    SettleKeys(s, ids[k], links);
    hide Sane, Settle;
    assert ids[k..][1..] == ids[k + 1..];
  }

  lemma SettleNobody(s: Session, links: map<Id, Id>)
    requires Sane(s)
    ensures SettleAll(s, [], links) == s
  {
  }
}
