/** When a speaker's label is the one its merged identities show.

A merge relabels its source only, and later changes relabel active speakers only, so identities merged
earlier can keep a label their speaker no longer has.
*/
module StaleLabels {
  import opened MergeForest
  import opened Options
  import opened SessionState
  import opened SessionSafety
  import opened SessionRuns
  import opened SpeakerSession
  import opened Speakers

  // ---- On links and labels ----------------------------------------------------------------

  ghost predicate ShownIn(l: Links, labels: Labels)
    requires Forest(l) && labels.Keys == l.Keys
  {
    forall x :: x in l ==> labels[x] == labels[Root(l, x)]
  }

  /** Some other identity resolves to `r`. */
  ghost predicate Has(l: Links, r: Id)
    requires Forest(l)
  {
    exists x :: x in l && x != r && Root(l, x) == r
  }

  /** Relabelling roots. */
  lemma RelabelShownIff(l: Links, labels: Labels, labels': Labels)
    requires Forest(l) && labels.Keys == l.Keys && labels'.Keys == l.Keys && ShownIn(l, labels)
    requires forall x :: x in l && l[x].Some? ==> labels'[x] == labels[x]
    ensures ShownIn(l, labels') <==> forall r :: r in l && labels'[r] != labels[r] ==> !Has(l, r)
  {
    hide Forest;
    forall r | r in l && labels'[r] != labels[r] && ShownIn(l, labels')
      ensures !Has(l, r)
    {
      forall x | x in l && x != r
        ensures Root(l, x) != r
      {
        assert labels'[x] == labels'[Root(l, x)] && labels[x] == labels[Root(l, x)];
      }
    }
    if forall r :: r in l && labels'[r] != labels[r] ==> !Has(l, r) {
      forall x | x in l
        ensures labels'[x] == labels'[Root(l, x)]
      {
        if l[x].Some? {
          assert Has(l, Root(l, x));
        }
      }
    }
  }

  /** Linking one root under another and giving it the other's label. */
  lemma LinkShownIff(l: Links, labels: Labels, src: Id, tgt: Id)
    requires Forest(l) && labels.Keys == l.Keys && ShownIn(l, labels) && TwoRoots(l, src, tgt)
    ensures Forest(l[src := Some(tgt)])
    ensures ShownIn(l[src := Some(tgt)], labels[src := labels[tgt]]) <==> labels[src] == labels[tgt] || !Has(l, src)
  {
    LinkKeepsForest(l, src, tgt);
    hide Forest, Ranked;
    var l', labels' := l[src := Some(tgt)], labels[src := labels[tgt]];
    if Has(l, src) {
      var x :| x in l && x != src && Root(l, x) == src;
      assert labels[x] == labels[src] && labels'[x] == labels[x] && Root(l', x) == tgt;
    }
  }

  lemma AddShown(l: Links, labels: Labels, id: Id, label': Label)
    requires Forest(l) && labels.Keys == l.Keys && ShownIn(l, labels) && id !in l
    ensures Forest(l[id := None]) && ShownIn(l[id := None], labels[id := label'])
  {
    AddKeepsForest(l, id);
    hide Forest, Ranked;
  }

  // ---- On sessions ------------------------------------------------------------------------

  /** Every identity shows the label of the speaker it resolves to. */
  ghost predicate Shown(s: Session)
    requires Sane(s)
  {
    forall id :: id in s.speakers ==> s.speakers[id].display == s.speakers[Get(s, id)].display
  }

  ghost predicate HasMerged(s: Session, r: Id)
    requires Sane(s)
  {
    exists x :: x in s.speakers && x != r && Get(s, x) == r
  }

  lemma ShownMeans(s: Session)
    requires Sane(s)
    ensures LabelsOf(s.speakers).Keys == LinksOf(s.speakers).Keys
    ensures Shown(s) <==> ShownIn(LinksOf(s.speakers), LabelsOf(s.speakers))
  {
    hide Root;
  }

  lemma HasMeans(s: Session, r: Id)
    requires Sane(s)
    ensures HasMerged(s, r) <==> Has(LinksOf(s.speakers), r)
  {
    hide Root;
  }

  /** A provisional speaker shows a temporary label. */
  ghost predicate TemporaryLabels(speakers: Roster) {
    forall id :: id in speakers && speakers[id].machine.state.PROVISIONAL? ==> Temporary(speakers[id].display)
  }

  /** The operation gives the active speaker `r` another label. */
  ghost predicate Renames(s: Session, op: Op, r: Id)
    requires Sane(s)
  {
    && IsActive(s.speakers, r)
    && var sp := s.speakers[r];
       match op
       case Merge(a, b, _) => CanMerge(s, a, b) && r == Get(s, a) && s.speakers[Get(s, b)].display != sp.display
       case Promote(id, _, display) =>
         id in s.speakers && r == Get(s, id) && sp.machine.state.PROVISIONAL? && display != Some(sp.display)
       case ApplyVoiceId(id, decision) =>
         id in s.speakers && r == Get(s, id) && decision.Accepted? && decision.registry != "" && decision.name != ""
         && sp.display != decision.name
       case FinalizeUnresolved => s.calibrated && sp.machine.state.PROVISIONAL? && sp.voice.current.Some?
       case _ => false
  }

  /** The operation renames a speaker others were merged into. */
  ghost predicate Strands(s: Session, op: Op)
    requires Sane(s)
  {
    exists r :: Renames(s, op, r) && HasMerged(s, r)
  }

  // ---- Provisional speakers keep temporary labels -----------------------------------------

  lemma MergeTemporary(s: Session, src: Id, tgt: Id, reason: string)
    requires Roots(s, src, tgt) && TemporaryLabels(s.speakers)
    ensures TemporaryLabels(MergeRoots(s, src, tgt, reason).speakers)
  {
    hide Temporary;
  }

  lemma PromoteTemporary(s: Session, r: Id, reason: string, display: Option<Label>)
    requires r in s.speakers && TemporaryLabels(s.speakers)
    ensures TemporaryLabels(PromoteRoot(s, r, reason, display).speakers)
  {
    hide Temporary, SpeakerLabel;
  }

  lemma VoiceIdTemporary(s: Session, r: Id, decision: VoiceId)
    requires r in s.speakers && TemporaryLabels(s.speakers)
    ensures TemporaryLabels(VoiceIdRoot(s, r, decision).speakers)
  {
    hide Temporary;
  }

  lemma LearnTemporary(s: Session, r: Id, buffered: bool)
    requires r in s.speakers && TemporaryLabels(s.speakers)
    ensures TemporaryLabels(LearnRoot(s, r, buffered).speakers)
  {
    hide Learn, Temporary;
  }

  lemma FinalizeOneTemporary(s: Session, id: Id)
    requires id in s.speakers && TemporaryLabels(s.speakers)
    ensures TemporaryLabels(FinalizeOne(s, id).speakers)
  {
    PromoteTemporary(s, id, "separated_evidence_final", None);
    hide PromoteRoot;
  }

  lemma {:induction false} FinalizeTemporary(s: Session, ids: seq<Id>)
    requires (forall id :: id in ids ==> id in s.speakers) && TemporaryLabels(s.speakers)
    ensures TemporaryLabels(FinalizeAll(s, ids).speakers)
  {
    hide TemporaryLabels;
    if ids != [] {
      FinalizeTemporary(s, ids[..|ids| - 1]);
      FinalizeOneTemporary(FinalizeAll(s, ids[..|ids| - 1]), ids[|ids| - 1]);
    }
  }

  lemma CreateTemporaryLabels(s: Session, op: Op)
    requires Sane(s) && TemporaryLabels(s.speakers) && (op.Create? || op.CreateTemporary? || op.Unattributed?)
    ensures TemporaryLabels(Do(s, op).speakers)
  {
    hide Sane, ActiveIds, NameFor, Temporary, TemporaryLabel;
    GeneratedLabels(s.temporaries + 1, 0);
  }

  lemma CannotLinkTemporary(s: Session, a: Id, b: Id)
    requires Sane(s) && TemporaryLabels(s.speakers)
    ensures TemporaryLabels(DoCannotLink(s, a, b).speakers)
  {
    hide Sane, Temporary;
  }

  lemma DoKeepsTemporary(s: Session, op: Op)
    requires Sane(s) && TemporaryLabels(s.speakers)
    ensures TemporaryLabels(Do(s, op).speakers)
  {
    hide Sane, TemporaryLabels, DoCreate, DoCreateTemporary, DoUnattributed, DoCannotLink, MergeRoots, PromoteRoot,
         VoiceIdRoot, LearnRoot, FinalizeAll, CanMerge;
    match op
    case CannotLink(a, b) => CannotLinkTemporary(s, a, b);
    case Merge(a, b, reason) =>
      if CanMerge(s, a, b) {
        CanMergeRoots(s, a, b);
        MergeTemporary(s, Get(s, a), Get(s, b), reason);
      }
    case Promote(id, reason, display) =>
      if id in s.speakers { PromoteTemporary(s, Get(s, id), reason, display); }
    case ApplyVoiceId(id, decision) =>
      if id in s.speakers { VoiceIdTemporary(s, Get(s, id), decision); }
    case LearnVoice(id, buffered) =>
      if id in s.speakers { LearnTemporary(s, Get(s, id), buffered); }
    case FinalizeUnresolved =>
      ActiveKnown(s.order, s.speakers, None);
      FinalizeTemporary(s, ActiveIds(s));
    case Drain =>
    case _ => CreateTemporaryLabels(s, op);
  }

  // ---- Which labels an operation changes --------------------------------------------------

  /** Finalization renames the provisional speakers with evidence, under calibrated thresholds. */
  predicate Confirmed(sp: Speaker, calibrated: bool) {
    calibrated && sp.machine.state.PROVISIONAL? && sp.voice.current.Some?
  }

  lemma FinalizeOneLabel(s: Session, id: Id)
    requires id in s.speakers && TemporaryLabels(s.speakers)
    ensures id in FinalizeOne(s, id).speakers
    ensures FinalizeOne(s, id).speakers[id].display != s.speakers[id].display
       <==> Confirmed(s.speakers[id], s.calibrated)
  {
    hide Temporary, SpeakerLabel;
    GeneratedLabels(s.labels + 1, 0);
  }

  lemma {:induction false} FinalizeLabels(s: Session, ids: seq<Id>, id: Id)
    requires (forall x :: x in ids ==> x in s.speakers) && Distinct(ids) && id in ids && TemporaryLabels(s.speakers)
    ensures FinalizeAll(s, ids).speakers[id].display != s.speakers[id].display
       <==> Confirmed(s.speakers[id], s.calibrated)
  {
    var init, last := ids[..|ids| - 1], ids[|ids| - 1];
    assert ids == init + [last];
    var before := FinalizeAll(s, init);
    FinalizeSettings(s, init);
    FinalizeTemporary(s, init);
    hide FinalizeOne, Confirmed, TemporaryLabels;
    if id == last {
      assert id !in init;
      FinalizeLeaves(s, init, id);
      FinalizeOneLabel(before, id);
    } else {
      FinalizeLabels(s, init, id);
      FinalizeOneLeaves(before, last, id);
    }
  }

  lemma FinalizeRenames(s: Session, id: Id)
    requires Sane(s) && TemporaryLabels(s.speakers) && id in s.speakers && id in Do(s, FinalizeUnresolved).speakers
    ensures Do(s, FinalizeUnresolved).speakers[id].display != s.speakers[id].display
       <==> Renames(s, FinalizeUnresolved, id)
  {
    ActiveKnown(s.order, s.speakers, None);
    ActiveDistinct(s.order, s.speakers, None);
    hide Active, FinalizeAll, TemporaryLabels;
    if s.speakers[id].mergedInto.None? {
      FinalizeLabels(s, ActiveIds(s), id);
    } else {
      FinalizeLeaves(s, ActiveIds(s), id);
    }
  }

  lemma PromoteRenames(s: Session, r: Id, reason: string, display: Option<Label>, id: Id)
    requires TemporaryLabels(s.speakers) && r in s.speakers && id in s.speakers
    ensures id in PromoteRoot(s, r, reason, display).speakers
    ensures PromoteRoot(s, r, reason, display).speakers[id].display != s.speakers[id].display
       <==> id == r && s.speakers[r].machine.state.PROVISIONAL? && display != Some(s.speakers[r].display)
  {
    hide Temporary, SpeakerLabel;
    GeneratedLabels(s.labels + 1, 0);
  }

  lemma VoiceIdRenames(s: Session, r: Id, decision: VoiceId, id: Id)
    requires r in s.speakers && id in s.speakers
    ensures id in VoiceIdRoot(s, r, decision).speakers
    ensures VoiceIdRoot(s, r, decision).speakers[id].display != s.speakers[id].display
       <==> id == r && decision.Accepted? && decision.registry != "" && decision.name != ""
            && s.speakers[r].display != decision.name
  {
  }

  lemma LearnRenames(s: Session, r: Id, buffered: bool, id: Id)
    requires r in s.speakers && id in s.speakers
    ensures id in LearnRoot(s, r, buffered).speakers
    ensures LearnRoot(s, r, buffered).speakers[id].display == s.speakers[id].display
  {
    hide Learn;
  }

  /** An operation in place changes exactly the labels it renames. */
  lemma LocalRenames(s: Session, op: Op, id: Id)
    requires Sane(s) && TemporaryLabels(s.speakers) && Local(op) && id in s.speakers
    ensures id in Do(s, op).speakers
    ensures Do(s, op).speakers[id].display != s.speakers[id].display <==> Renames(s, op, id)
  {
    LocalInPlace(s, op);
    hide Sane, TemporaryLabels, PromoteRoot, VoiceIdRoot, LearnRoot, FinalizeAll, Get;
    match op
    case Promote(x, reason, display) =>
      if x in s.speakers { PromoteRenames(s, Get(s, x), reason, display, id); }
    case ApplyVoiceId(x, decision) =>
      if x in s.speakers { VoiceIdRenames(s, Get(s, x), decision, id); }
    case LearnVoice(x, buffered) =>
      if x in s.speakers { LearnRenames(s, Get(s, x), buffered, id); }
    case FinalizeUnresolved => FinalizeRenames(s, id);
    case Drain =>
  }

  // ---- One operation ----------------------------------------------------------------------

  lemma LocalShownIff(s: Session, op: Op)
    requires Sane(s) && Sane(Do(s, op)) && TemporaryLabels(s.speakers) && Local(op) && Shown(s)
    ensures Shown(Do(s, op)) <==> !Strands(s, op)
  {
    LocalSame(s, op);
    StrandsMeans(s, op);
    hide *;
    forall x | x in s.speakers
      ensures Do(s, op).speakers[x].display != s.speakers[x].display <==> Renames(s, op, x)
      ensures Renames(s, op, x) ==> s.speakers[x].mergedInto.None?
    {
      LocalRenames(s, op, x);
      if Renames(s, op, x) {
        RenamesActive(s, op, x);
      }
    }
    RelabelledShownIff(s, Do(s, op));
  }

  lemma LocalSame(s: Session, op: Op)
    requires Sane(s) && Local(op)
    ensures SameIdentities(s, Do(s, op)) && Do(s, op).speakers.Keys == s.speakers.Keys
  {
    LocalInPlace(s, op);
    InPlaceIdentities(s, Do(s, op));
    hide Sane, Do, LinksOf, StoredOf;
  }

  lemma StrandsMeans(s: Session, op: Op)
    requires Sane(s)
    ensures Strands(s, op) <==> exists x :: x in s.speakers && Renames(s, op, x) && HasMerged(s, x)
  {
    hide Sane, Renames, HasMerged;
    forall x | Renames(s, op, x)
      ensures x in s.speakers
    {
      RenamesActive(s, op, x);
    }
  }

  lemma RenamesActive(s: Session, op: Op, x: Id)
    requires Sane(s) && Renames(s, op, x)
    ensures x in s.speakers && s.speakers[x].mergedInto.None?
  {
    hide Sane, Get, CanMerge;
  }

  lemma RelabelledShownIff(s: Session, s': Session)
    requires Sane(s) && Sane(s') && Shown(s) && SameIdentities(s, s')
    requires forall x :: x in s.speakers && s'.speakers[x].display != s.speakers[x].display ==>
      s.speakers[x].mergedInto.None?
    ensures Shown(s') <==>
      forall x :: x in s.speakers && s'.speakers[x].display != s.speakers[x].display ==> !HasMerged(s, x)
  {
    assert Forest(LinksOf(s.speakers));
    ShownMeans(s);
    ShownMeans(s');
    var l, labels, labels' := LinksOf(s.speakers), LabelsOf(s.speakers), LabelsOf(s'.speakers);
    forall x | x in s.speakers
      ensures x in l && labels[x] == s.speakers[x].display && labels'[x] == s'.speakers[x].display
      ensures l[x] == s.speakers[x].mergedInto
      ensures HasMerged(s, x) <==> Has(l, x)
    {
      HasMeans(s, x);
    }
    assert forall x :: x in l ==> x in s.speakers;
    hide Sane, HasMerged, Has, Shown, ShownIn, LinksOf, LabelsOf, Forest;
    RelabelShownIff(l, labels, labels');
  }

  lemma MergeStrands(s: Session, op: Op)
    requires Sane(s) && op.Merge?
    ensures Strands(s, op) ==> CanMerge(s, op.a, op.b)
    ensures CanMerge(s, op.a, op.b) ==>
      (Strands(s, op) <==>
         s.speakers[Get(s, op.a)].display != s.speakers[Get(s, op.b)].display && HasMerged(s, Get(s, op.a)))
  {
    if CanMerge(s, op.a, op.b) {
      CanMergeRoots(s, op.a, op.b);
      var r := Get(s, op.a);
      hide Sane, CanMerge, Get, HasMerged;
      assert Renames(s, op, r) <==> s.speakers[r].display != s.speakers[Get(s, op.b)].display;
      assert forall x :: Renames(s, op, x) ==> x == r;
    }
  }

  lemma MergeShownIff(s: Session, op: Op)
    requires Sane(s) && Sane(Do(s, op)) && op.Merge? && Shown(s)
    ensures Shown(Do(s, op)) <==> !Strands(s, op)
  {
    hide *;
    DoIsMerge(s, op);
    MergeIs(s, op.a, op.b, op.reason);
    MergeStrands(s, op);
    if CanMerge(s, op.a, op.b) {
      MergeRootsShownIff(s, Get(s, op.a), Get(s, op.b), op.reason);
    }
  }

  lemma LabelAt(s: Session, id: Id)
    requires id in s.speakers
    ensures id in LabelsOf(s.speakers) && LabelsOf(s.speakers)[id] == s.speakers[id].display
  {
  }

  lemma MergeRootsShownIff(s: Session, src: Id, tgt: Id, reason: string)
    requires Sane(s) && Shown(s) && Roots(s, src, tgt)
    ensures Sane(MergeRoots(s, src, tgt, reason))
    ensures Shown(MergeRoots(s, src, tgt, reason))
       <==> s.speakers[src].display == s.speakers[tgt].display || !HasMerged(s, src)
  {
    hide *;
    RootsKnown(s, src, tgt);
    MergeRootsSane(s, src, tgt, reason);
    MergeRootsRoster(s, src, tgt, reason);
    RootsAreRoots(s, src, tgt);
    LinkedShownIff(s, MergeRoots(s, src, tgt, reason), src, tgt);
  }

  lemma RootsKnown(s: Session, src: Id, tgt: Id)
    requires Roots(s, src, tgt)
    ensures src in s.speakers && tgt in s.speakers
  {
  }

  lemma LinkedShownIff(s: Session, s': Session, src: Id, tgt: Id)
    requires Sane(s) && Sane(s') && Shown(s) && src in s.speakers && tgt in s.speakers
    requires TwoRoots(LinksOf(s.speakers), src, tgt)
    requires LinksOf(s'.speakers) == LinksOf(s.speakers)[src := Some(tgt)]
    requires LabelsOf(s'.speakers) == LabelsOf(s.speakers)[src := s.speakers[tgt].display]
    ensures Shown(s') <==> s.speakers[src].display == s.speakers[tgt].display || !HasMerged(s, src)
  {
    assert Forest(LinksOf(s.speakers));
    hide Sane, HasMerged, Has, Shown, ShownIn, LinksOf, LabelsOf, Forest, TwoRoots;
    ShownMeans(s);
    ShownMeans(s');
    HasMeans(s, src);
    LabelAt(s, src);
    LabelAt(s, tgt);
    LinkShownIff(LinksOf(s.speakers), LabelsOf(s.speakers), src, tgt);
  }

  lemma RegisterShown(s: Session, s': Session, id: Id)
    requires Sane(s) && Sane(s') && Shown(s) && Registers(s, s', id)
    ensures Shown(s')
  {
    ShownMeans(s);
    ShownMeans(s');
    if s'.speakers != s.speakers {
      RosterPut(s.speakers, id, s'.speakers[id]);
      assert id !in LinksOf(s.speakers);
      hide Sane, Shown, ShownIn, LinksOf, LabelsOf, StoredOf, Forest;
      AddShown(LinksOf(s.speakers), LabelsOf(s.speakers), id, s'.speakers[id].display);
    }
  }

  lemma CannotLinkShown(s: Session, a: Id, b: Id)
    requires Sane(s) && Sane(DoCannotLink(s, a, b)) && Shown(s)
    ensures Shown(DoCannotLink(s, a, b))
  {
    hide Sane, Shown, DoCannotLink;
    if Both(s, a, b) {
      CannotLinkRoster(s, a, b);
      ShownMeans(s);
      ShownMeans(DoCannotLink(s, a, b));
    } else {
      CannotLinkNobody(s, a, b);
    }
  }

  lemma DoIsCannotLink(s: Session, a: Id, b: Id)
    requires Sane(s)
    ensures Do(s, CannotLink(a, b)) == DoCannotLink(s, a, b)
  {
    hide Sane, DoCannotLink;
  }

  lemma RenamesNobody(s: Session, op: Op)
    requires Sane(s) && !op.Merge? && !op.Promote? && !op.ApplyVoiceId? && !op.FinalizeUnresolved?
    ensures !Strands(s, op)
  {
    hide Sane, HasMerged, IsActive;
  }

  /** While every label is shown, an operation keeps it so exactly when it renames no speaker others
  were merged into. */
  lemma DoKeepsShownIff(s: Session, op: Op)
    requires Sane(s) && TemporaryLabels(s.speakers) && Shown(s)
    ensures Sane(Do(s, op)) && (Shown(Do(s, op)) <==> !Strands(s, op))
  {
    DoKeepsSane(s, op);
    hide Sane, TemporaryLabels, Shown, Strands, Do, Grows;
    if Local(op) {
      LocalShownIff(s, op);
    } else if op.Merge? {
      MergeShownIff(s, op);
    } else {
      RenamesNobody(s, op);
      if op.CannotLink? {
        DoIsCannotLink(s, op.a, op.b);
        CannotLinkShown(s, op.a, op.b);
      } else {
        OpRegisters(s, op);
        RegisterShown(s, Do(s, op), op.id);
      }
    }
  }

  // ---- Whole runs -------------------------------------------------------------------------

  lemma {:induction false} RunTemporaryLabels(cap: nat, calibrated: bool, ops: seq<Op>)
    ensures TemporaryLabels(Run(cap, calibrated, ops).session.speakers)
  {
    hide TemporaryLabels, Sane, Do, Good;
    if ops == [] {
      assert TemporaryLabels(map[]) by { NoTemporaryLabels(); }
    } else {
      RunTemporaryLabels(cap, calibrated, ops[..|ops| - 1]);
      RunNextSession(cap, calibrated, ops);
      DoKeepsTemporary(Run(cap, calibrated, ops[..|ops| - 1]).session, ops[|ops| - 1]);
    }
  }

  lemma NoTemporaryLabels()
    ensures TemporaryLabels(map[])
  {
  }

  /** The labels are shown after `k` operations of a run. */
  ghost predicate ShownAt(cap: nat, calibrated: bool, ops: seq<Op>, k: nat)
    requires k <= |ops|
  {
    GoodSane(Run(cap, calibrated, ops[..k]));
    Shown(Run(cap, calibrated, ops[..k]).session)
  }

  ghost predicate StrandsAt(cap: nat, calibrated: bool, ops: seq<Op>, k: nat)
    requires k < |ops|
  {
    GoodSane(Run(cap, calibrated, ops[..k]));
    Strands(Run(cap, calibrated, ops[..k]).session, ops[k])
  }

  lemma ShownAtIs(cap: nat, calibrated: bool, ops: seq<Op>, k: nat)
    requires k <= |ops|
    ensures Sane(Run(cap, calibrated, ops[..k]).session)
    ensures ShownAt(cap, calibrated, ops, k) <==> Shown(Run(cap, calibrated, ops[..k]).session)
    ensures k < |ops| ==>
      (StrandsAt(cap, calibrated, ops, k) <==> Strands(Run(cap, calibrated, ops[..k]).session, ops[k]))
  {
    GoodSane(Run(cap, calibrated, ops[..k]));
    hide Run, Sane, Good, Shown, Strands;
  }

  lemma ShownNext(cap: nat, calibrated: bool, ops: seq<Op>, k: nat)
    requires k < |ops| && ShownAt(cap, calibrated, ops, k)
    ensures ShownAt(cap, calibrated, ops, k + 1) <==> !StrandsAt(cap, calibrated, ops, k)
  {
    hide *;
    assert ops[..k + 1] == ops[..k] + [ops[k]];
    RunSnoc(cap, calibrated, ops[..k], ops[k]);
    RunTemporaryLabels(cap, calibrated, ops[..k]);
    ShownAtIs(cap, calibrated, ops, k);
    ShownAtIs(cap, calibrated, ops, k + 1);
    DoKeepsShownIff(Run(cap, calibrated, ops[..k]).session, ops[k]);
  }

  lemma ShownFirst(cap: nat, calibrated: bool, ops: seq<Op>)
    ensures ShownAt(cap, calibrated, ops, 0)
  {
    assert ops[..0] == [];
  }

  ghost predicate NoneStrands(cap: nat, calibrated: bool, ops: seq<Op>, n: nat)
    requires n <= |ops|
  {
    forall k :: 0 <= k < n ==> !StrandsAt(cap, calibrated, ops, k)
  }

  lemma {:induction false} NoneStrandsShown(cap: nat, calibrated: bool, ops: seq<Op>, n: nat)
    requires n <= |ops| && NoneStrands(cap, calibrated, ops, n)
    ensures ShownAt(cap, calibrated, ops, n)
  {
    hide ShownAt, StrandsAt;
    if n == 0 {
      ShownFirst(cap, calibrated, ops);
    } else {
      NoneStrandsShown(cap, calibrated, ops, n - 1);
      ShownNext(cap, calibrated, ops, n - 1);
    }
  }

  /** In every state of a run all identities show their speaker's label, exactly when no operation of
  the run renames a speaker others were merged into. */
  lemma RunKeepsShownIff(cap: nat, calibrated: bool, ops: seq<Op>)
    ensures (forall k :: 0 <= k <= |ops| ==> ShownAt(cap, calibrated, ops, k))
       <==> (forall k :: 0 <= k < |ops| ==> !StrandsAt(cap, calibrated, ops, k))
  {
    hide ShownAt, StrandsAt;
    if forall k :: 0 <= k <= |ops| ==> ShownAt(cap, calibrated, ops, k) {
      forall k | 0 <= k < |ops|
        ensures !StrandsAt(cap, calibrated, ops, k)
      {
        ShownNext(cap, calibrated, ops, k);
      }
    }
    if forall k :: 0 <= k < |ops| ==> !StrandsAt(cap, calibrated, ops, k) {
      forall k | 0 <= k <= |ops|
        ensures ShownAt(cap, calibrated, ops, k)
      {
        NoneStrandsShown(cap, calibrated, ops, k);
      }
    }
  }

  // ---- A run that leaves a stale label ----------------------------------------------------

  lemma MergeLabels(s: Session, a: Id, b: Id, reason: string)
    requires Sane(s) && Holds(s, a, {}) && Holds(s, b, {}) && a != b
    ensures var s' := Do(s, Merge(a, b, reason));
      && s'.speakers.Keys == s.speakers.Keys && s'.speakers[a].display == s.speakers[b].display
      && (forall x :: x in s.speakers && x != a ==> s'.speakers[x].display == s.speakers[x].display)
  {
    GuardStep(s, a, b, {}, {});
    GetOfRoot(s, a);
    GetOfRoot(s, b);
    MergeRootsMade(s, a, b, reason);
    hide Sane, Get, CanMerge;
  }

  /** Merging `a` into `b` and `b` into `g` leaves `a` with the label `b` had. */
  lemma MergedTwiceKeepsOld(s: Session, a: Id, b: Id, g: Id, reason: string)
    requires Sane(s) && Holds(s, a, {}) && Holds(s, b, {}) && Holds(s, g, {}) && a != b && a != g && b != g
    ensures var s1 := Do(s, Merge(a, b, reason));
      Sane(s1)
      && var s2 := Do(s1, Merge(b, g, reason));
      Sane(s2) && a in s2.speakers && Get(s2, a) == g
      && s2.speakers[a].display == s.speakers[b].display && s2.speakers[g].display == s.speakers[g].display
  {
    hide Sane, Do, CanMerge, Get;
    MergeStep(s, a, b, {}, {}, reason);
    MergeLabels(s, a, b, reason);
    var s1 := Do(s, Merge(a, b, reason));
    var nobody: set<Id> := {};
    assert nobody + nobody == nobody;
    MergeStep(s1, b, g, {}, {}, reason);
    MergeLabels(s1, b, g, reason);
    var s2 := Do(s1, Merge(b, g, reason));
    MergedChain(s2, a, b, g);
  }

  lemma MergedChain(s: Session, a: Id, b: Id, g: Id)
    requires Sane(s) && Under(s, a, b) && Under(s, b, g) && g in s.speakers && s.speakers[g].mergedInto.None?
    ensures Get(s, a) == g
  {
    assert LinksOf(s.speakers)[a] == Some(b) && LinksOf(s.speakers)[b] == Some(g) && LinksOf(s.speakers)[g] == None;
    assert Root(LinksOf(s.speakers), a) == Root(LinksOf(s.speakers), b) == Root(LinksOf(s.speakers), g);
  }

  lemma CreateLabel(s: Session, id: Id, taken: set<Id>)
    requires Sane(s) && Room(s, taken) && id !in taken
    ensures var s' := Do(s, Create(id, None, None));
      && s'.labels == s.labels + 1 && id in s'.speakers && s'.speakers[id].display == SpeakerLabel(s.labels + 1)
      && (forall x :: x in s.speakers ==> x in s'.speakers && s'.speakers[x] == s.speakers[x])
  {
    hide Sane, ActiveIds, SpeakerLabel;
  }

  lemma RoomAfter(s: Session, id: Id, taken: set<Id>)
    requires Sane(s) && Room(s, taken) && id !in taken && |taken| + 1 < s.cap
    ensures var s' := Do(s, Create(id, None, None));
      Room(s', taken + {id}) && s'.cap == s.cap && |taken + {id}| == |taken| + 1
  {
    CreateStep(s, id, taken);
    hide Do, Sane, ActiveIds, Holds, OthersKept;
  }

  lemma ThreeLabels(s0: Session, s1: Session, s2: Session, s3: Session, a: Id, b: Id, g: Id)
    requires Room(s0, {}) && s0.cap >= 3 && a != b && a != g && b != g
    requires Sane(s0) && s1 == Do(s0, Create(a, None, None))
    requires Sane(s1) && s2 == Do(s1, Create(b, None, None))
    requires Sane(s2) && s3 == Do(s2, Create(g, None, None))
    ensures b in s3.speakers && g in s3.speakers && s3.speakers[b].display != s3.speakers[g].display
  {
    hide *;
    var none: set<Id> := {};
    RoomAfter(s0, a, none);
    RoomAfter(s1, b, none + {a});
    CreateLabel(s0, a, none);
    CreateLabel(s1, b, none + {a});
    CreateLabel(s2, g, none + {a} + {b});
    GeneratedLabels(s1.labels + 1, s2.labels + 1);
  }

  lemma FiveSteps(s0: Session, s1: Session, s2: Session, s3: Session, s4: Session, s5: Session,
                  a: Id, b: Id, g: Id, reason: string)
    requires Room(s0, {}) && s0.cap >= 3 && a != b && a != g && b != g
    requires Sane(s0) && s1 == Do(s0, Create(a, None, None))
    requires Sane(s1) && s2 == Do(s1, Create(b, None, None))
    requires Sane(s2) && s3 == Do(s2, Create(g, None, None))
    requires Sane(s3) && s4 == Do(s3, Merge(a, b, reason))
    requires Sane(s4) && s5 == Do(s4, Merge(b, g, reason)) && Sane(s5)
    ensures !Shown(s5)
  {
    hide Do, Sane, ActiveIds, Room, Holds, Get, Shown;
    ThreeSteps(s0, s1, s2, s3, a, b, g);
    ThreeLabels(s0, s1, s2, s3, a, b, g);
    MergedTwiceKeepsOld(s3, a, b, g, reason);
    NotShown(s5, a);
  }

  /** Five operations from a new session after which a merged identity shows a label its speaker does
  not have. */
  lemma StaleLabelOnRun(cap: nat, calibrated: bool, a: Id, b: Id, g: Id, reason: string)
    requires cap >= 3 && a != b && a != g && b != g
    ensures var ops := ThreeSpeakers(a, b, g) + [Merge(a, b, reason)] + [Merge(b, g, reason)];
      !ShownAt(cap, calibrated, ops, |ops|)
  {
    var none: seq<Op> := [];
    var one, two := [] + [Create(a, None, None)], [] + [Create(a, None, None)] + [Create(b, None, None)];
    var three := ThreeSpeakers(a, b, g);
    var four := three + [Merge(a, b, reason)];
    var ops := four + [Merge(b, g, reason)];
    StartRoom(cap, calibrated);
    assert ops[..|ops|] == ops;
    hide Run, Do, Sane, Holds, Room, Next, Good, Get, Shown;
    RunSnoc(cap, calibrated, none, Create(a, None, None));
    RunSnoc(cap, calibrated, one, Create(b, None, None));
    RunSnoc(cap, calibrated, two, Create(g, None, None));
    RunSnoc(cap, calibrated, three, Merge(a, b, reason));
    RunSnoc(cap, calibrated, four, Merge(b, g, reason));
    GoodSane(Run(cap, calibrated, ops));
    FiveSteps(Run(cap, calibrated, none).session, Run(cap, calibrated, one).session, Run(cap, calibrated, two).session,
              Run(cap, calibrated, three).session, Run(cap, calibrated, four).session,
              Run(cap, calibrated, ops).session, a, b, g, reason);
  }

  lemma NotShown(s: Session, a: Id)
    requires Sane(s) && a in s.speakers && s.speakers[a].display != s.speakers[Get(s, a)].display
    ensures !Shown(s)
  {
    hide Sane, Get;
  }
}
