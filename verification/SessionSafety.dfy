/** What every session operation keeps: acyclic links, identifiers never reused, one sink, the cap. */
module SessionSafety {
  import opened MergeForest
  import opened Options
  import opened SessionState
  import opened Speakers

  // ---- Links, stored constraints and labels of a roster -----------------------------------

  lemma RosterPut(speakers: Roster, id: Id, sp: Speaker)
    ensures LinksOf(speakers[id := sp]) == LinksOf(speakers)[id := sp.mergedInto]
    ensures StoredOf(speakers[id := sp]) == StoredOf(speakers)[id := sp.cannotLink]
    ensures LabelsOf(speakers[id := sp]) == LabelsOf(speakers)[id := sp.display]
  {
  }

  /** The two rosters hold the same identities with the same links and the same stored constraints. */
  ghost predicate SameShape(one: Roster, two: Roster) {
    && one.Keys == two.Keys
    && forall id :: id in one ==> one[id].mergedInto == two[id].mergedInto && one[id].cannotLink == two[id].cannotLink
  }

  lemma SameShapeMeans(one: Roster, two: Roster)
    requires SameShape(one, two)
    ensures LinksOf(one) == LinksOf(two) && StoredOf(one) == StoredOf(two)
  {
  }

  /** Every operation that touches neither identities nor links. */
  ghost predicate SameIdentities(s: Session, s': Session) {
    && s'.order == s.order && s'.sink == s.sink && s'.cap == s.cap && s'.speakers.Keys == s.speakers.Keys
    && LinksOf(s'.speakers) == LinksOf(s.speakers)
  }

  ghost predicate Listed(s: Session) {
    && (forall id :: id in s.order <==> id in s.speakers)
    && (forall i, j :: 0 <= i < j < |s.order| ==> s.order[i] != s.order[j])
    && (s.sink.Some? ==> s.sink.value in s.speakers)
  }

  lemma SaneParts(s: Session)
    ensures Sane(s) <==> Forest(LinksOf(s.speakers)) && Listed(s)
  {
  }

  lemma SameIdentitiesSane(s: Session, s': Session)
    requires Sane(s) && SameIdentities(s, s')
    ensures Sane(s')
  {
    hide LinksOf, Forest;
  }

  // ---- Registration -----------------------------------------------------------------------

  lemma RegisterListed(s: Session, id: Id, sp: Speaker)
    requires Listed(s) && id !in s.speakers
    ensures Listed(Register(s, id, sp))
  {
    hide LinksOf;
    var s' := Register(s, id, sp);
    forall x
      ensures x in s'.order <==> x in s'.speakers
    {
      assert x in s'.order <==> x in s.order || x == id;
    }
  }

  lemma RegisterSane(s: Session, id: Id, sp: Speaker)
    requires Sane(s) && id !in s.speakers && sp.mergedInto.None?
    ensures Sane(Register(s, id, sp))
    ensures LinksOf(Register(s, id, sp).speakers) == LinksOf(s.speakers)[id := None]
  {
    SaneParts(s);
    SaneParts(Register(s, id, sp));
    RegisterListed(s, id, sp);
    RosterPut(s.speakers, id, sp);
    assert id !in LinksOf(s.speakers);
    hide Sane, Listed, LinksOf;
    AddKeepsForest(LinksOf(s.speakers), id);
  }

  // ---- Merging ----------------------------------------------------------------------------

  ghost predicate Roots(s: Session, src: Id, tgt: Id) {
    && src in s.speakers && tgt in s.speakers && src != tgt
    && s.speakers[src].mergedInto.None? && s.speakers[tgt].mergedInto.None?
  }

  lemma RootsAreRoots(s: Session, src: Id, tgt: Id)
    requires Roots(s, src, tgt)
    ensures TwoRoots(LinksOf(s.speakers), src, tgt)
  {
  }

  lemma BothRoots(s: Session, a: Id, b: Id)
    requires Sane(s) && Both(s, a, b)
    ensures Roots(s, Get(s, a), Get(s, b))
  {
  }

  lemma MergeRootsRoster(s: Session, src: Id, tgt: Id, reason: string)
    requires Roots(s, src, tgt)
    ensures var s' := MergeRoots(s, src, tgt, reason);
      && s'.order == s.order && s'.sink == s.sink && s'.cap == s.cap && s'.speakers.Keys == s.speakers.Keys
      && LinksOf(s'.speakers) == LinksOf(s.speakers)[src := Some(tgt)]
      && StoredOf(s'.speakers) == Absorb(StoredOf(s.speakers), src, tgt)
      && LabelsOf(s'.speakers) == LabelsOf(s.speakers)[src := s.speakers[tgt].display]
  {
    hide MergedMachine;
    var s' := MergeRoots(s, src, tgt, reason);
    var from, to := s.speakers[src], s.speakers[tgt];
    MergeRootsMade(s, src, tgt, reason);
    var sp, tp := s'.speakers[src], s'.speakers[tgt];
    RosterPut(s.speakers, tgt, tp);
    RosterPut(s.speakers[tgt := tp], src, sp);
    assert StoredOf(s.speakers)[src] == from.cannotLink && StoredOf(s.speakers)[tgt] == to.cannotLink;
    assert LinksOf(s.speakers)[tgt] == None;
    assert LabelsOf(s.speakers)[tgt] == to.display;
    hide LinksOf, StoredOf, LabelsOf, MergeRoots;
    UpdateSame(LinksOf(s.speakers), tgt, None);
    UpdateSame(LabelsOf(s.speakers), tgt, to.display);
    UpdateSame(Absorb(StoredOf(s.speakers), src, tgt), src, from.cannotLink);
  }

  lemma UpdateSame<T>(m: map<Id, T>, id: Id, v: T)
    requires id in m && m[id] == v
    ensures m[id := v] == m
  {
  }

  lemma MergeRootsMade(s: Session, src: Id, tgt: Id, reason: string)
    requires Roots(s, src, tgt)
    ensures var s' := MergeRoots(s, src, tgt, reason);
      && src in s'.speakers && tgt in s'.speakers
      && s'.speakers == s.speakers[tgt := s'.speakers[tgt]][src := s'.speakers[src]]
      && s'.speakers[src].mergedInto == Some(tgt)
      && s'.speakers[tgt].mergedInto == None
      && s'.speakers[src].cannotLink == s.speakers[src].cannotLink
      && s'.speakers[tgt].cannotLink == s.speakers[tgt].cannotLink + (s.speakers[src].cannotLink - {tgt})
      && s'.speakers[src].display == s.speakers[tgt].display
      && s'.speakers[tgt].display == s.speakers[tgt].display
      && s'.order == s.order && s'.sink == s.sink && s'.cap == s.cap && s'.speakers.Keys == s.speakers.Keys
  {
    hide MergedMachine;
  }

  lemma MergeRootsSane(s: Session, src: Id, tgt: Id, reason: string)
    requires Sane(s) && Roots(s, src, tgt)
    ensures Sane(MergeRoots(s, src, tgt, reason))
  {
    var s' := MergeRoots(s, src, tgt, reason);
    SaneParts(s);
    SaneParts(s');
    RootsAreRoots(s, src, tgt);
    MergeRootsRoster(s, src, tgt, reason);
    ListedSame(s, s');
    hide Sane, Listed, LinksOf, MergeRoots, Roots, StoredOf, LabelsOf, Absorb;
    LinkKeepsForest(LinksOf(s.speakers), src, tgt);
  }

  lemma ListedSame(s: Session, s': Session)
    requires s'.order == s.order && s'.sink == s.sink && s'.speakers.Keys == s.speakers.Keys
    ensures Listed(s') <==> Listed(s)
  {
  }

  // ---- Operations in place ----------------------------------------------------------------

  ghost predicate InPlace(s: Session, s': Session) {
    && s'.order == s.order && s'.sink == s.sink && s'.cap == s.cap && SameShape(s.speakers, s'.speakers)
  }

  lemma PromoteInPlace(s: Session, r: Id, reason: string, display: Option<Label>)
    requires r in s.speakers
    ensures InPlace(s, PromoteRoot(s, r, reason, display))
  {
  }

  lemma VoiceIdInPlace(s: Session, r: Id, decision: VoiceId)
    requires r in s.speakers
    ensures InPlace(s, VoiceIdRoot(s, r, decision))
  {
    hide Step;
  }

  lemma LearnInPlace(s: Session, r: Id, buffered: bool)
    requires r in s.speakers
    ensures InPlace(s, LearnRoot(s, r, buffered))
  {
    hide Learn;
  }

  lemma FinalizeOneInPlace(s: Session, id: Id)
    requires id in s.speakers
    ensures InPlace(s, FinalizeOne(s, id))
  {
    PromoteInPlace(s, id, "separated_evidence_final", None);
    hide PromoteRoot;
  }

  lemma {:induction false} FinalizeInPlace(s: Session, ids: seq<Id>)
    requires forall id :: id in ids ==> id in s.speakers
    ensures InPlace(s, FinalizeAll(s, ids))
  {
    if ids != [] {
      FinalizeInPlace(s, ids[..|ids| - 1]);
      FinalizeOneInPlace(FinalizeAll(s, ids[..|ids| - 1]), ids[|ids| - 1]);
      hide FinalizeOne;
    }
  }

  /** Operations that touch neither identities nor links nor constraints. */
  predicate Local(op: Op) {
    op.Promote? || op.ApplyVoiceId? || op.LearnVoice? || op.FinalizeUnresolved? || op.Drain?
  }

  lemma LocalInPlace(s: Session, op: Op)
    requires Sane(s) && Local(op)
    ensures InPlace(s, Do(s, op))
  {
    hide Sane, PromoteRoot, VoiceIdRoot, LearnRoot, FinalizeAll, SameShape;
    match op
    case Promote(id, reason, display) =>
      if id in s.speakers { PromoteInPlace(s, Get(s, id), reason, display); } else { InPlaceRefl(s); }
    case ApplyVoiceId(id, decision) =>
      if id in s.speakers { VoiceIdInPlace(s, Get(s, id), decision); } else { InPlaceRefl(s); }
    case LearnVoice(id, buffered) =>
      if id in s.speakers { LearnInPlace(s, Get(s, id), buffered); } else { InPlaceRefl(s); }
    case FinalizeUnresolved =>
      ActiveKnown(s.order, s.speakers, None);
      FinalizeInPlace(s, ActiveIds(s));
    case Drain =>
      InPlaceRefl(s);
  }

  lemma InPlaceRefl(s: Session)
    ensures InPlace(s, s)
  {
  }

  lemma InPlaceIdentities(s: Session, s': Session)
    requires InPlace(s, s')
    ensures SameIdentities(s, s') && StoredOf(s'.speakers) == StoredOf(s.speakers)
  {
    SameShapeMeans(s.speakers, s'.speakers);
  }

  // ---- Constraints ------------------------------------------------------------------------

  lemma CannotLinkRoster(s: Session, a: Id, b: Id)
    requires Sane(s) && Both(s, a, b)
    ensures SameIdentities(s, DoCannotLink(s, a, b))
    ensures StoredOf(DoCannotLink(s, a, b).speakers) == Declare(StoredOf(s.speakers), Get(s, a), Get(s, b))
    ensures LabelsOf(DoCannotLink(s, a, b).speakers) == LabelsOf(s.speakers)
  {
    var x, y := Get(s, a), Get(s, b);
    var sx := s.speakers[x].(cannotLink := s.speakers[x].cannotLink + {y});
    var sy := s.speakers[y].(cannotLink := s.speakers[y].cannotLink + {x});
    DoublePut(s.speakers, x, y, sx, sy);
    hide Sane;
  }

  lemma DoublePut(speakers: Roster, x: Id, y: Id, sx: Speaker, sy: Speaker)
    requires x in speakers && y in speakers && x != y
    requires sx == speakers[x].(cannotLink := speakers[x].cannotLink + {y})
    requires sy == speakers[y].(cannotLink := speakers[y].cannotLink + {x})
    ensures LinksOf(speakers[x := sx][y := sy]) == LinksOf(speakers)
    ensures LabelsOf(speakers[x := sx][y := sy]) == LabelsOf(speakers)
    ensures StoredOf(speakers[x := sx][y := sy]) == Declare(StoredOf(speakers), x, y)
  {
    RosterPut(speakers, x, sx);
    RosterPut(speakers[x := sx], y, sy);
    assert LinksOf(speakers)[x] == sx.mergedInto && LinksOf(speakers)[y] == sy.mergedInto;
    assert LabelsOf(speakers)[x] == sx.display && LabelsOf(speakers)[y] == sy.display;
    hide LinksOf, LabelsOf;
    UpdateSame(LinksOf(speakers), x, sx.mergedInto);
    UpdateSame(LinksOf(speakers), y, sy.mergedInto);
    UpdateSame(LabelsOf(speakers), x, sx.display);
    UpdateSame(LabelsOf(speakers), y, sy.display);
  }

  lemma CannotLinkIdentities(s: Session, a: Id, b: Id)
    requires Sane(s)
    ensures SameIdentities(s, DoCannotLink(s, a, b))
  {
    if Both(s, a, b) {
      CannotLinkRoster(s, a, b);
    }
  }

  // ---- Identities -------------------------------------------------------------------------

  /** Identifiers are only ever added, in order, and the sink never changes once there is one. */
  ghost predicate Grows(s: Session, s': Session) {
    s.order <= s'.order && (s.sink.Some? ==> s'.sink == s.sink) && s'.cap == s.cap
  }

  lemma CreateSane(s: Session, id: Id, cluster: Option<string>, display: Option<Label>)
    requires Sane(s)
    ensures Sane(DoCreate(s, id, cluster, display)) && Grows(s, DoCreate(s, id, cluster, display))
  {
    var s1 := s.(labels := s.labels + 1);
    SameIdentitiesSane(s, s1);
    if id !in s.speakers {
      RegisterSane(s1, id, NewSpeaker(NewMachine(SESSION_ANONYMOUS), NameFor(display, s.labels + 1), cluster));
    }
    hide Sane, LinksOf, NameFor, ActiveIds;
  }

  lemma CreateTemporarySane(s: Session, id: Id)
    requires Sane(s)
    ensures Sane(DoCreateTemporary(s, id)) && Grows(s, DoCreateTemporary(s, id))
  {
    var s1 := s.(temporaries := s.temporaries + 1);
    SameIdentitiesSane(s, s1);
    if id !in s.speakers {
      RegisterSane(s1, id, NewSpeaker(NewMachine(PROVISIONAL), TemporaryLabel(s.temporaries + 1), None));
    }
    hide Sane, LinksOf, ActiveIds;
  }

  lemma UnattributedSane(s: Session, id: Id)
    requires Sane(s)
    ensures Sane(DoUnattributed(s, id)) && Grows(s, DoUnattributed(s, id))
  {
    if id !in s.speakers {
      RegisterSane(s, id, NewSpeaker(UnknownMachine(), UNATTRIBUTED_LABEL, None));
    }
  }

  /** Links stay acyclic, so every identity keeps resolving to an active root. */
  lemma DoKeepsSane(s: Session, op: Op)
    requires Sane(s)
    ensures Sane(Do(s, op)) && Grows(s, Do(s, op))
  {
    hide Sane, LinksOf, StoredOf, DoCreate, DoCreateTemporary, DoUnattributed, DoCannotLink, CanMerge;
    if Local(op) {
      LocalInPlace(s, op);
      InPlaceIdentities(s, Do(s, op));
      SameIdentitiesSane(s, Do(s, op));
    } else {
      match op
      case Create(id, cluster, display) => CreateSane(s, id, cluster, display);
      case CreateTemporary(id) => CreateTemporarySane(s, id);
      case Unattributed(id) => UnattributedSane(s, id);
      case CannotLink(a, b) =>
        CannotLinkIdentities(s, a, b);
        SameIdentitiesSane(s, Do(s, op));
      case Merge(a, b, reason) => MergeSane(s, a, b, reason);
    }
  }

  lemma MergeSane(s: Session, a: Id, b: Id, reason: string)
    requires Sane(s)
    ensures Sane(DoMerge(s, a, b, reason)) && Grows(s, DoMerge(s, a, b, reason))
  {
    if CanMerge(s, a, b) {
      BothRoots(s, a, b);
      MergeRootsRoster(s, Get(s, a), Get(s, b), reason);
      MergeRootsSane(s, Get(s, a), Get(s, b), reason);
    }
    hide Sane, LinksOf, StoredOf, MergeRoots;
  }

  // ---- The cap ----------------------------------------------------------------------------

  predicate IsActive(speakers: Roster, id: Id) {
    id in speakers && speakers[id].mergedInto.None?
  }

  lemma {:induction false} ActiveSame(order: seq<Id>, speakers: Roster, speakers': Roster, skip: Option<Id>)
    requires forall id :: id in order ==> (IsActive(speakers, id) <==> IsActive(speakers', id))
    ensures Active(order, speakers', skip) == Active(order, speakers, skip)
  {
    if order != [] {
      ActiveSame(order[..|order| - 1], speakers, speakers', skip);
      assert order[|order| - 1] in order;
    }
  }

  lemma LinksActive(s: Session, s': Session, skip: Option<Id>)
    requires SameIdentities(s, s')
    ensures Active(s'.order, s'.speakers, skip) == Active(s.order, s.speakers, skip)
  {
    forall id | id in s.speakers
      ensures s'.speakers[id].mergedInto == s.speakers[id].mergedInto
    {
      assert LinksOf(s'.speakers)[id] == LinksOf(s.speakers)[id];
    }
    hide LinksOf, Active;
    ActiveSame(s.order, s.speakers, s'.speakers, skip);
  }

  lemma RegisterActive(s: Session, id: Id, sp: Speaker, skip: Option<Id>)
    requires Listed(s) && id !in s.speakers && sp.mergedInto.None?
    ensures Active(Register(s, id, sp).order, Register(s, id, sp).speakers, skip)
         == Active(s.order, s.speakers, skip) + (if skip == Some(id) then [] else [id])
  {
    var s' := Register(s, id, sp);
    assert s'.order[..|s'.order| - 1] == s.order;
    ActiveSame(s.order, s.speakers, s'.speakers, skip);
  }

  lemma {:induction false} SkipBound(order: seq<Id>, speakers: Roster, skip: Option<Id>)
    ensures |Active(order, speakers, skip)| <= |Active(order, speakers, None)|
  {
    if order != [] {
      SkipBound(order[..|order| - 1], speakers, skip);
    }
  }

  lemma {:induction false} SkipAbsent(order: seq<Id>, speakers: Roster, id: Id)
    requires id !in order
    ensures Active(order, speakers, Some(id)) == Active(order, speakers, None)
  {
    if order != [] {
      SkipAbsent(order[..|order| - 1], speakers, id);
      assert order[|order| - 1] in order;
    }
  }

  /** Removing one distinct active identity takes exactly one off the count. */
  lemma {:induction false} ActiveWithout(order: seq<Id>, speakers: Roster, speakers': Roster, src: Id, skip: Option<Id>)
    requires forall i, j :: 0 <= i < j < |order| ==> order[i] != order[j]
    requires IsActive(speakers, src) && !IsActive(speakers', src)
    requires forall id :: id in order && id != src ==> (IsActive(speakers, id) <==> IsActive(speakers', id))
    ensures |Active(order, speakers', skip)|
         == |Active(order, speakers, skip)| - (if src in order && skip != Some(src) then 1 else 0)
  {
    if order != [] {
      var init, last := order[..|order| - 1], order[|order| - 1];
      ActiveWithout(init, speakers, speakers', src, skip);
      assert order == init + [last] && last in order;
      assert last == src ==> src !in init;
      assert src in order <==> src in init || last == src;
      assert last != src ==> (IsActive(speakers, last) <==> IsActive(speakers', last));
    }
  }

  /** Active speakers other than the unattributed sink. */
  function Others(s: Session): seq<Id> {
    Active(s.order, s.speakers, s.sink)
  }

  ghost predicate Capped(s: Session) {
    |Others(s)| <= s.cap
  }

  lemma MergeActive(s: Session, src: Id, tgt: Id, reason: string, skip: Option<Id>)
    requires Listed(s) && Roots(s, src, tgt)
    ensures var s' := MergeRoots(s, src, tgt, reason);
      |Active(s'.order, s'.speakers, skip)|
      == |Active(s.order, s.speakers, skip)| - (if skip == Some(src) then 0 else 1)
  {
    var s' := MergeRoots(s, src, tgt, reason);
    MergeRootsMade(s, src, tgt, reason);
    hide MergeRoots, Active;
    ActiveWithout(s.order, s.speakers, s'.speakers, src, skip);
  }

  /** An accepted merge takes exactly one speaker off the active count; a refused one none. */
  lemma MergeCountsDown(s: Session, a: Id, b: Id, reason: string)
    requires Sane(s)
    ensures |ActiveIds(Do(s, Merge(a, b, reason)))|
         == |ActiveIds(s)| - (if CanMerge(s, a, b) then 1 else 0)
  {
    if CanMerge(s, a, b) {
      SaneParts(s);
      BothRoots(s, a, b);
      hide Active, MergeRoots, Sane;
      MergeActive(s, Get(s, a), Get(s, b), reason, None);
    }
  }

  lemma NewSpeakerCapped(s: Session, s1: Session, id: Id, sp: Speaker)
    requires Listed(s) && Capped(s) && id !in s.speakers && sp.mergedInto.None?
    requires s1.order == s.order && s1.sink == s.sink && s1.cap == s.cap && s1.speakers == s.speakers
    requires |ActiveIds(s)| < s.cap
    ensures Capped(Register(s1, id, sp))
  {
    RegisterActive(s1, id, sp, s1.sink);
    SkipBound(s.order, s.speakers, s.sink);
  }

  lemma MergeCapped(s: Session, a: Id, b: Id, reason: string)
    requires Sane(s) && Capped(s)
    ensures Capped(DoMerge(s, a, b, reason))
  {
    if CanMerge(s, a, b) {
      SaneParts(s);
      BothRoots(s, a, b);
      MergeRootsMade(s, Get(s, a), Get(s, b), reason);
      hide Active, MergeRoots, Sane;
      MergeActive(s, Get(s, a), Get(s, b), reason, s.sink);
    }
  }

  lemma RegisteredCapped(s: Session, s1: Session, id: Id, sp: Speaker)
    requires Listed(s) && Capped(s) && sp.mergedInto.None?
    requires s1.order == s.order && s1.sink == s.sink && s1.cap == s.cap && s1.speakers == s.speakers
    ensures Capped(if |ActiveIds(s)| >= s.cap then s else if id in s.speakers then s1 else Register(s1, id, sp))
  {
    if |ActiveIds(s)| < s.cap && id !in s.speakers {
      NewSpeakerCapped(s, s1, id, sp);
    }
    hide Active, Listed, Register, ActiveIds;
  }

  lemma CreateCapped(s: Session, id: Id, cluster: Option<string>, display: Option<Label>)
    requires Listed(s) && Capped(s)
    ensures Capped(DoCreate(s, id, cluster, display))
  {
    hide Capped, Listed, Register, ActiveIds, NameFor;
    RegisteredCapped(s, s.(labels := s.labels + 1), id,
                     NewSpeaker(NewMachine(SESSION_ANONYMOUS), NameFor(display, s.labels + 1), cluster));
  }

  lemma CreateTemporaryCapped(s: Session, id: Id)
    requires Listed(s) && Capped(s)
    ensures Capped(DoCreateTemporary(s, id))
  {
    hide Capped, Listed, Register, ActiveIds, TemporaryLabel;
    RegisteredCapped(s, s.(temporaries := s.temporaries + 1), id,
                     NewSpeaker(NewMachine(PROVISIONAL), TemporaryLabel(s.temporaries + 1), None));
  }

  lemma UnattributedCapped(s: Session, id: Id)
    requires Listed(s) && Capped(s)
    ensures Capped(DoUnattributed(s, id))
  {
    if s.sink.None? && id !in s.speakers {
      RegisterActive(s, id, NewSpeaker(UnknownMachine(), UNATTRIBUTED_LABEL, None), Some(id));
      SkipAbsent(s.order, s.speakers, id);
    }
    hide Active;
  }

  lemma DoKeepsCapped(s: Session, op: Op)
    requires Sane(s) && Capped(s)
    ensures Capped(Do(s, op))
  {
    SaneParts(s);
    hide Sane, Listed, LinksOf, StoredOf, DoCreate, DoCreateTemporary, DoUnattributed, DoCannotLink, DoMerge,
         Active, Both;
    if Local(op) {
      LocalInPlace(s, op);
      InPlaceIdentities(s, Do(s, op));
      LinksActive(s, Do(s, op), s.sink);
    } else {
      match op
      case Create(id, cluster, display) => CreateCapped(s, id, cluster, display);
      case CreateTemporary(id) => CreateTemporaryCapped(s, id);
      case Unattributed(id) => UnattributedCapped(s, id);
      case CannotLink(a, b) =>
        CannotLinkIdentities(s, a, b);
        LinksActive(s, Do(s, op), s.sink);
      case Merge(a, b, reason) => MergeCapped(s, a, b, reason);
    }
  }
}
