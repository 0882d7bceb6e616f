/** Whole runs of session operations: identity histories, label changes and declared constraints. */
module SessionRuns {
  import opened MergeForest
  import opened Options
  import opened SessionSafety
  import opened SessionState
  import opened Speakers

  // ---- Identity histories -----------------------------------------------------------------

  /** Every speaker's recorded history is a path of the transition table. */
  ghost predicate AllRecorded(speakers: Roster) {
    forall id :: id in speakers ==> Recorded(speakers[id].machine)
  }

  lemma PutRecorded(speakers: Roster, id: Id, sp: Speaker)
    requires AllRecorded(speakers) && Recorded(sp.machine)
    ensures AllRecorded(speakers[id := sp])
  {
    hide Recorded;
  }

  lemma NewRecorded(initial: Identity)
    requires IsInitial(initial)
    ensures Recorded(NewMachine(initial))
  {
  }

  lemma UnknownRecorded()
    ensures Recorded(UnknownMachine())
  {
    NewRecorded(PROVISIONAL);
    StepKeepsRecorded(NewMachine(PROVISIONAL), UNKNOWN, "insufficient_evidence");
  }

  lemma MergedRecorded(m: Machine, reason: string)
    requires Recorded(m)
    ensures Recorded(MergedMachine(m, reason))
  {
    hide Recorded;
    if m.state.PROVISIONAL? {
      StepKeepsRecorded(m, SESSION_ANONYMOUS, reason);
      StepKeepsRecorded(Step(m, SESSION_ANONYMOUS, reason).value, MERGED, reason);
    } else if m.state.SESSION_ANONYMOUS? {
      StepKeepsRecorded(m, MERGED, reason);
    }
  }

  lemma MergeRecorded(s: Session, src: Id, tgt: Id, reason: string)
    requires Roots(s, src, tgt) && AllRecorded(s.speakers)
    ensures AllRecorded(MergeRoots(s, src, tgt, reason).speakers)
  {
    MergedRecorded(s.speakers[src].machine, reason);
    hide Recorded, MergedMachine;
  }

  lemma PromoteRecorded(s: Session, r: Id, reason: string, display: Option<Label>)
    requires r in s.speakers && AllRecorded(s.speakers)
    ensures AllRecorded(PromoteRoot(s, r, reason, display).speakers)
  {
    var m := s.speakers[r].machine;
    if m.state.PROVISIONAL? {
      StepKeepsRecorded(m, SESSION_ANONYMOUS, reason);
    }
    hide Recorded;
  }

  lemma VoiceIdRecorded(s: Session, r: Id, decision: VoiceId)
    requires r in s.speakers && AllRecorded(s.speakers)
    ensures AllRecorded(VoiceIdRoot(s, r, decision).speakers)
  {
    hide Recorded;
    var m := s.speakers[r].machine;
    match m.state
    case PROVISIONAL => StepKeepsRecorded(m, ENROLLED, "voice_id_accept");
    case SESSION_ANONYMOUS => StepKeepsRecorded(m, ENROLLED, "voice_id_accept");
    case AMBIGUOUS => StepKeepsRecorded(m, ENROLLED, "voice_id_reaccept");
    case ENROLLED => StepKeepsRecorded(m, AMBIGUOUS, "voice_id_contradiction");
    case _ =>
  }

  lemma LearnRecorded(s: Session, r: Id, buffered: bool)
    requires r in s.speakers && AllRecorded(s.speakers)
    ensures AllRecorded(LearnRoot(s, r, buffered).speakers)
  {
    hide Recorded;
  }

  lemma FinalizeOneRecorded(s: Session, id: Id)
    requires id in s.speakers && AllRecorded(s.speakers)
    ensures AllRecorded(FinalizeOne(s, id).speakers)
  {
    PromoteRecorded(s, id, "separated_evidence_final", None);
    var m := s.speakers[id].machine;
    if m.state.PROVISIONAL? {
      StepKeepsRecorded(m, UNKNOWN, "insufficient_evidence");
    }
    hide Recorded, PromoteRoot;
  }

  lemma {:induction false} FinalizeRecorded(s: Session, ids: seq<Id>)
    requires (forall id :: id in ids ==> id in s.speakers) && AllRecorded(s.speakers)
    ensures AllRecorded(FinalizeAll(s, ids).speakers)
  {
    hide AllRecorded;
    if ids != [] {
      FinalizeRecorded(s, ids[..|ids| - 1]);
      FinalizeOneRecorded(FinalizeAll(s, ids[..|ids| - 1]), ids[|ids| - 1]);
    }
  }

  lemma CreateRecorded(s: Session, id: Id, cluster: Option<string>, display: Option<Label>)
    requires AllRecorded(s.speakers)
    ensures AllRecorded(DoCreate(s, id, cluster, display).speakers)
  {
    NewRecorded(SESSION_ANONYMOUS);
    PutRecorded(s.speakers, id, NewSpeaker(NewMachine(SESSION_ANONYMOUS), NameFor(display, s.labels + 1), cluster));
    hide AllRecorded, ActiveIds, NameFor;
  }

  lemma CreateTemporaryRecorded(s: Session, id: Id)
    requires AllRecorded(s.speakers)
    ensures AllRecorded(DoCreateTemporary(s, id).speakers)
  {
    NewRecorded(PROVISIONAL);
    PutRecorded(s.speakers, id, NewSpeaker(NewMachine(PROVISIONAL), TemporaryLabel(s.temporaries + 1), None));
    hide AllRecorded, ActiveIds;
  }

  lemma UnattributedRecorded(s: Session, id: Id)
    requires AllRecorded(s.speakers)
    ensures AllRecorded(DoUnattributed(s, id).speakers)
  {
    UnknownRecorded();
    PutRecorded(s.speakers, id, NewSpeaker(UnknownMachine(), UNATTRIBUTED_LABEL, None));
    hide AllRecorded, UnknownMachine;
  }

  lemma CannotLinkRecorded(s: Session, a: Id, b: Id)
    requires Sane(s) && AllRecorded(s.speakers)
    ensures AllRecorded(DoCannotLink(s, a, b).speakers)
  {
    hide Recorded, Sane;
  }

  lemma DoKeepsRecorded(s: Session, op: Op)
    requires Sane(s) && AllRecorded(s.speakers)
    ensures AllRecorded(Do(s, op).speakers)
  {
    hide Sane, AllRecorded, DoCreate, DoCreateTemporary, DoUnattributed, DoCannotLink, MergeRoots, PromoteRoot,
         VoiceIdRoot, LearnRoot, FinalizeAll, CanMerge;
    match op
    case Create(id, cluster, display) => CreateRecorded(s, id, cluster, display);
    case CreateTemporary(id) => CreateTemporaryRecorded(s, id);
    case Unattributed(id) => UnattributedRecorded(s, id);
    case CannotLink(a, b) => CannotLinkRecorded(s, a, b);
    case Merge(a, b, reason) =>
      if CanMerge(s, a, b) {
        CanMergeRoots(s, a, b);
        MergeRecorded(s, Get(s, a), Get(s, b), reason);
      }
    case Promote(id, reason, display) =>
      if id in s.speakers { PromoteRecorded(s, Get(s, id), reason, display); }
    case ApplyVoiceId(id, decision) =>
      if id in s.speakers { VoiceIdRecorded(s, Get(s, id), decision); }
    case LearnVoice(id, buffered) =>
      if id in s.speakers { LearnRecorded(s, Get(s, id), buffered); }
    case FinalizeUnresolved =>
      ActiveKnown(s.order, s.speakers, None);
      FinalizeRecorded(s, ActiveIds(s));
    case Drain =>
  }

  lemma CanMergeRoots(s: Session, a: Id, b: Id)
    requires Sane(s) && CanMerge(s, a, b)
    ensures Both(s, a, b) && Roots(s, Get(s, a), Get(s, b))
  {
    BothRoots(s, a, b);
  }

  // ---- Label changes ----------------------------------------------------------------------

  type Labels = map<Id, Label>

  /** The labels a reader has after applying the changes in order. */
  function Replay(created: Labels, changes: seq<LabelChange>): Labels {
    if changes == [] then created
    else
      var last := changes[|changes| - 1];
      Replay(created, changes[..|changes| - 1])[last.id := last.current]
  }

  /** Every change names an identity the reader knows, and the label the reader has for it. */
  ghost predicate Honest(created: Labels, changes: seq<LabelChange>) {
    changes == [] ||
    var init, last := changes[..|changes| - 1], changes[|changes| - 1];
    Honest(created, init) && last.id in Replay(created, init) && Replay(created, init)[last.id] == last.previous
  }

  ghost predicate Told(created: Labels, changes: seq<LabelChange>, labels: Labels) {
    Honest(created, changes) && Replay(created, changes) == labels
  }

  ghost predicate TellsAll(created: Labels, published: seq<LabelChange>, s: Session) {
    Told(created, published + s.pending, LabelsOf(s.speakers))
  }

  lemma {:induction false} ReplayNewcomer(created: Labels, changes: seq<LabelChange>, id: Id, display: Label)
    requires Honest(created, changes) && id !in created
    ensures Honest(created[id := display], changes)
    ensures Replay(created[id := display], changes) == Replay(created, changes)[id := display]
    ensures id !in Replay(created, changes)
  {
    if changes != [] {
      ReplayNewcomer(created, changes[..|changes| - 1], id, display);
    }
  }

  lemma ToldChange(created: Labels, changes: seq<LabelChange>, labels: Labels, change: LabelChange)
    requires Told(created, changes, labels) && change.id in labels && labels[change.id] == change.previous
    ensures Told(created, changes + [change], labels[change.id := change.current])
  {
    assert (changes + [change])[..|changes|] == changes;
  }

  /** At most one change is queued, and it is what happens to the labels. */
  ghost predicate Announces(s: Session, s': Session) {
    || (s'.pending == s.pending && LabelsOf(s'.speakers) == LabelsOf(s.speakers))
    || (&& |s'.pending| == |s.pending| + 1
        && var change := s'.pending[|s.pending|];
        && s'.pending == s.pending + [change]
        && change.id in s.speakers && change.previous == s.speakers[change.id].display
        && LabelsOf(s'.speakers) == LabelsOf(s.speakers)[change.id := change.current])
  }

  lemma AnnouncedTold(created: Labels, published: seq<LabelChange>, s: Session, s': Session)
    requires TellsAll(created, published, s) && Announces(s, s')
    ensures TellsAll(created, published, s')
  {
    hide Told;
    if s'.pending != s.pending {
      var change := s'.pending[|s.pending|];
      assert published + s'.pending == published + s.pending + [change];
      ToldChange(created, published + s.pending, LabelsOf(s.speakers), change);
    }
  }

  lemma RelabelAnnounces(s: Session, s1: Session, id: Id, sp: Speaker, display: Label, reason: string)
    requires id in s.speakers && s1.speakers == s.speakers && s1.pending == s.pending
    ensures Announces(s, Relabel(s1, id, sp, display, reason))
  {
    RosterPut(s.speakers, id, sp.(display := display));
    hide LabelsOf;
  }

  lemma PutAnnounces(s: Session, id: Id, sp: Speaker)
    requires id in s.speakers && sp.display == s.speakers[id].display
    ensures Announces(s, Put(s, id, sp))
  {
    RosterPut(s.speakers, id, sp);
    assert LabelsOf(s.speakers)[id] == sp.display;
    hide LabelsOf;
    UpdateSame(LabelsOf(s.speakers), id, sp.display);
  }

  lemma MergeAnnounces(s: Session, src: Id, tgt: Id, reason: string)
    requires Roots(s, src, tgt)
    ensures Announces(s, MergeRoots(s, src, tgt, reason))
  {
    MergeRootsRoster(s, src, tgt, reason);
    hide LabelsOf, LinksOf, StoredOf, Absorb, MergedMachine;
  }

  lemma PromoteAnnounces(s: Session, r: Id, reason: string, display: Option<Label>)
    requires r in s.speakers
    ensures Announces(s, PromoteRoot(s, r, reason, display))
  {
    var sp := s.speakers[r];
    if sp.machine.state.PROVISIONAL? {
      var s1 := if display.None? then s.(labels := s.labels + 1) else s;
      var name := if display.Some? then display.value else SpeakerLabel(s.labels + 1);
      RelabelAnnounces(s, s1, r, sp.(machine := Step(sp.machine, SESSION_ANONYMOUS, reason).value), name, reason);
    }
    hide Announces, Relabel;
    assert !sp.machine.state.PROVISIONAL? ==> Quiet(s, PromoteRoot(s, r, reason, display));
    QuietAnnounces(s, PromoteRoot(s, r, reason, display));
  }

  ghost predicate Quiet(s: Session, s': Session) {
    s'.pending == s.pending && s'.speakers == s.speakers
  }

  lemma QuietAnnounces(s: Session, s': Session)
    ensures Quiet(s, s') ==> Announces(s, s')
  {
  }

  lemma VoiceIdAnnounces(s: Session, r: Id, decision: VoiceId)
    requires r in s.speakers
    ensures Announces(s, VoiceIdRoot(s, r, decision))
  {
    hide Announces, Relabel;
    var sp, s' := s.speakers[r], VoiceIdRoot(s, r, decision);
    QuietAnnounces(s, s');
    match decision
    case Accepted(registry, name) =>
      if registry != "" && name != "" {
        var state := sp.machine.state;
        var machine :=
          if state in {PROVISIONAL, SESSION_ANONYMOUS} then Step(sp.machine, ENROLLED, "voice_id_accept").value
          else if state.AMBIGUOUS? then Step(sp.machine, ENROLLED, "voice_id_reaccept").value
          else sp.machine;
        RelabelAnnounces(s, s, r, sp.(machine := machine, registry := Some(registry)), name, "voice_id_accept");
      }
    case Contradicted =>
      if sp.machine.state.ENROLLED? {
        PutAnnounces(s, r, sp.(machine := Step(sp.machine, AMBIGUOUS, "voice_id_contradiction").value));
      }
    case NoDecision =>
  }

  lemma LearnAnnounces(s: Session, r: Id, buffered: bool)
    requires r in s.speakers
    ensures Announces(s, LearnRoot(s, r, buffered))
  {
    hide Announces, Learn;
    QuietAnnounces(s, LearnRoot(s, r, buffered));
    PutAnnounces(s, r, s.speakers[r].(voice := Learn(s.speakers[r].voice, r)));
  }

  lemma FinalizeOneAnnounces(s: Session, id: Id)
    requires id in s.speakers
    ensures Announces(s, FinalizeOne(s, id))
  {
    var sp := s.speakers[id];
    PromoteAnnounces(s, id, "separated_evidence_final", None);
    QuietAnnounces(s, FinalizeOne(s, id));
    if sp.machine.state.PROVISIONAL? {
      PutAnnounces(s, id, sp.(machine := Step(sp.machine, UNKNOWN, "insufficient_evidence").value));
    }
    hide Announces, PromoteRoot;
  }

  lemma {:induction false} FinalizeTold(created: Labels, published: seq<LabelChange>, s: Session, ids: seq<Id>)
    requires (forall id :: id in ids ==> id in s.speakers) && TellsAll(created, published, s)
    ensures TellsAll(created, published, FinalizeAll(s, ids))
  {
    hide TellsAll, Announces, FinalizeOne;
    if ids != [] {
      var before := FinalizeAll(s, ids[..|ids| - 1]);
      FinalizeTold(created, published, s, ids[..|ids| - 1]);
      FinalizeOneAnnounces(before, ids[|ids| - 1]);
      AnnouncedTold(created, published, before, FinalizeOne(before, ids[|ids| - 1]));
    }
  }

  lemma CannotLinkAnnounces(s: Session, a: Id, b: Id)
    requires Sane(s)
    ensures Announces(s, DoCannotLink(s, a, b))
  {
    if Both(s, a, b) {
      CannotLinkRoster(s, a, b);
    }
    hide Sane, LabelsOf;
  }

  // ---- Traces -----------------------------------------------------------------------------

  /** A session with what its readers were given so far: the label of every identity at its creation
  and the changes drained since; and the pairs declared as different people. */
  datatype Trace = Trace(session: Session, created: Labels, published: seq<LabelChange>, declared: set<(Id, Id)>)

  function Newcomers(s: Session, s': Session): Labels {
    map id | id in s'.speakers && id !in s.speakers :: s'.speakers[id].display
  }

  ghost function Next(t: Trace, op: Op): Trace
    requires Sane(t.session)
  {
    var s' := Do(t.session, op);
    Trace(s', t.created + Newcomers(t.session, s'),
          if op.Drain? then t.published + t.session.pending else t.published,
          if op.CannotLink? && Both(t.session, op.a, op.b) then t.declared + {(op.a, op.b)} else t.declared)
  }

  ghost predicate Fits(t: Trace) {
    Constraints(LinksOf(t.session.speakers), StoredOf(t.session.speakers), t.declared)
  }

  /** What holds in every reachable state. */
  ghost predicate Good(t: Trace) {
    && Sane(t.session)
    && Capped(t.session)
    && AllRecorded(t.session.speakers)
    && TellsAll(t.created, t.published, t.session)
    && Fits(t)
  }

  lemma SameNewcomers(s: Session, s': Session)
    requires s'.speakers.Keys == s.speakers.Keys
    ensures Newcomers(s, s') == map[]
  {
  }

  lemma RegisterTold(t: Trace, s': Session, id: Id, sp: Speaker)
    requires TellsAll(t.created, t.published, t.session) && id !in t.session.speakers
    requires s'.pending == t.session.pending && s'.speakers == t.session.speakers[id := sp]
    ensures TellsAll(t.created + Newcomers(t.session, s'), t.published, s')
  {
    OneNewcomer(t.session, s', id, sp);
    assert id !in LabelsOf(t.session.speakers);
    RosterPut(t.session.speakers, id, sp);
    hide LabelsOf, LinksOf, StoredOf, Told, Newcomers;
    ToldNewcomer(t.created, t.published + t.session.pending, LabelsOf(t.session.speakers), id, sp.display);
    MapPlus(t.created, id, sp.display);
  }

  lemma MapPlus(created: Labels, id: Id, display: Label)
    ensures created + map[id := display] == created[id := display]
  {
  }

  lemma ToldNewcomer(created: Labels, changes: seq<LabelChange>, labels: Labels, id: Id, display: Label)
    requires Told(created, changes, labels) && id !in labels
    ensures Told(created[id := display], changes, labels[id := display])
  {
    CreatedKnown(created, changes);
    hide Honest, Replay;
    ReplayNewcomer(created, changes, id, display);
  }

  lemma OneNewcomer(s: Session, s': Session, id: Id, sp: Speaker)
    requires id !in s.speakers && s'.speakers == s.speakers[id := sp]
    ensures Newcomers(s, s') == map[id := sp.display]
  {
  }

  lemma {:induction false} CreatedKnown(created: Labels, changes: seq<LabelChange>)
    ensures created.Keys <= Replay(created, changes).Keys
  {
    if changes != [] {
      CreatedKnown(created, changes[..|changes| - 1]);
    }
  }

  lemma RegisterFits(t: Trace, id: Id, sp: Speaker)
    requires Fits(t) && id !in t.session.speakers && sp.mergedInto.None? && sp.cannotLink == {}
    ensures Constraints(LinksOf(t.session.speakers[id := sp]), StoredOf(t.session.speakers[id := sp]), t.declared)
  {
    RosterPut(t.session.speakers, id, sp);
    assert id !in LinksOf(t.session.speakers);
    hide Constraints, LinksOf, StoredOf;
    AddKeepsConstraints(LinksOf(t.session.speakers), StoredOf(t.session.speakers), t.declared, id);
  }

  /** The state changes by one registration of a fresh, unconstrained identity, or not in its roster. */
  ghost predicate Registers(s: Session, s': Session, id: Id) {
    && s'.pending == s.pending
    && (s'.speakers == s.speakers
        || (id !in s.speakers && id in s'.speakers && s'.speakers == s.speakers[id := s'.speakers[id]]
            && s'.speakers[id].mergedInto.None? && s'.speakers[id].cannotLink == {}))
  }

  lemma OpRegisters(s: Session, op: Op)
    requires Sane(s) && (op.Create? || op.CreateTemporary? || op.Unattributed?)
    ensures Registers(s, Do(s, op), op.id)
  {
    hide Sane, ActiveIds, UnknownMachine, NameFor;
  }

  lemma RegistersGood(t: Trace, s': Session, id: Id)
    requires TellsAll(t.created, t.published, t.session) && Fits(t) && Registers(t.session, s', id)
    ensures TellsAll(t.created + Newcomers(t.session, s'), t.published, s')
    ensures Fits(t.(session := s'))
  {
    hide TellsAll, Constraints;
    if s'.speakers == t.session.speakers {
      SameNewcomers(t.session, s');
      assert t.created + map[] == t.created;
      QuietAnnounces(t.session, s');
      AnnouncedTold(t.created, t.published, t.session, s');
    } else {
      RegisterTold(t, s', id, s'.speakers[id]);
      RegisterFits(t, id, s'.speakers[id]);
    }
  }

  lemma DrainTold(t: Trace)
    requires TellsAll(t.created, t.published, t.session)
    ensures TellsAll(t.created, t.published + t.session.pending, t.session.(pending := []))
  {
    assert t.published + t.session.pending + [] == t.published + t.session.pending;
  }

  lemma MergeFits(t: Trace, src: Id, tgt: Id, reason: string)
    requires Fits(t) && Roots(t.session, src, tgt)
    ensures Fits(t.(session := MergeRoots(t.session, src, tgt, reason)))
  {
    MergeRootsRoster(t.session, src, tgt, reason);
    RootsAreRoots(t.session, src, tgt);
    hide Constraints, LinksOf, StoredOf, LabelsOf, MergeRoots, TwoRoots;
    MergeKeepsConstraints(LinksOf(t.session.speakers), StoredOf(t.session.speakers), t.declared, src, tgt);
  }

  lemma NextSession(t: Trace, op: Op)
    requires Sane(t.session)
    ensures Next(t, op).session == Do(t.session, op)
    ensures !op.CannotLink? ==> Next(t, op).declared == t.declared
  {
    hide Sane, Do, Newcomers, Both;
  }

  lemma NextCannotLink(t: Trace, a: Id, b: Id)
    requires Sane(t.session)
    ensures Next(t, CannotLink(a, b)).session == DoCannotLink(t.session, a, b)
    ensures Next(t, CannotLink(a, b)).declared == if Both(t.session, a, b) then t.declared + {(a, b)} else t.declared
  {
    hide Sane, DoCannotLink, Newcomers, Both;
  }

  lemma CannotLinkNobody(s: Session, a: Id, b: Id)
    requires Sane(s) && !Both(s, a, b)
    ensures DoCannotLink(s, a, b) == s
  {
    hide Sane, Both;
  }

  lemma CannotLinkFits(t: Trace, a: Id, b: Id)
    requires Sane(t.session) && Fits(t)
    ensures Fits(Next(t, CannotLink(a, b)))
  {
    NextCannotLink(t, a, b);
    hide Sane, Constraints, Next, DoCannotLink, Both, LinksOf, StoredOf;
    if Both(t.session, a, b) {
      CannotLinkPairFits(t, a, b);
    } else {
      CannotLinkNobody(t.session, a, b);
    }
  }

  lemma CannotLinkPairFits(t: Trace, a: Id, b: Id)
    requires Sane(t.session) && Fits(t) && Both(t.session, a, b)
    ensures var speakers := DoCannotLink(t.session, a, b).speakers;
      Constraints(LinksOf(speakers), StoredOf(speakers), t.declared + {(a, b)})
  {
    var s := t.session;
    CannotLinkRoster(s, a, b);
    InLinks(s, a);
    InLinks(s, b);
    assert Root(LinksOf(s.speakers), a) != Root(LinksOf(s.speakers), b);
    hide Constraints, LinksOf, StoredOf, LabelsOf, Sane, DoCannotLink, Declare, Forest, Both;
    DeclareKeepsConstraints(LinksOf(s.speakers), StoredOf(s.speakers), t.declared, a, b);
  }

  lemma InLinks(s: Session, id: Id)
    requires id in s.speakers
    ensures id in LinksOf(s.speakers)
  {
  }

  /** What an operation that registers nobody does to the roster's identities. */
  lemma NoNewcomers(s: Session, op: Op)
    requires Sane(s) && !op.Create? && !op.CreateTemporary? && !op.Unattributed?
    ensures Do(s, op).speakers.Keys == s.speakers.Keys
  {
    hide Sane, MergeRoots, PromoteRoot, VoiceIdRoot, LearnRoot, FinalizeAll, DoCannotLink, CanMerge;
    if Local(op) {
      LocalInPlace(s, op);
    } else {
      match op
      case CannotLink(a, b) => CannotLinkIdentities(s, a, b);
      case Merge(a, b, reason) =>
        if CanMerge(s, a, b) {
          CanMergeRoots(s, a, b);
          MergeRootsMade(s, Get(s, a), Get(s, b), reason);
        }
    }
  }

  lemma OpTold(t: Trace, op: Op)
    requires Sane(t.session) && TellsAll(t.created, t.published, t.session)
    requires !op.Create? && !op.CreateTemporary? && !op.Unattributed? && !op.Drain?
    ensures TellsAll(t.created, t.published, Do(t.session, op))
  {
    var s := t.session;
    hide TellsAll, Announces, Sane, MergeRoots, PromoteRoot, VoiceIdRoot, LearnRoot, FinalizeAll,
         DoCannotLink, CanMerge;
    match op
    case FinalizeUnresolved =>
      ActiveKnown(s.order, s.speakers, None);
      FinalizeTold(t.created, t.published, s, ActiveIds(s));
    case CannotLink(a, b) =>
      CannotLinkAnnounces(s, a, b);
      AnnouncedTold(t.created, t.published, s, Do(s, op));
    case Merge(a, b, reason) =>
      if CanMerge(s, a, b) {
        CanMergeRoots(s, a, b);
        MergeAnnounces(s, Get(s, a), Get(s, b), reason);
        AnnouncedTold(t.created, t.published, s, Do(s, op));
      }
    case Promote(id, reason, display) =>
      if id in s.speakers {
        PromoteAnnounces(s, Get(s, id), reason, display);
        AnnouncedTold(t.created, t.published, s, Do(s, op));
      }
    case ApplyVoiceId(id, decision) =>
      if id in s.speakers {
        VoiceIdAnnounces(s, Get(s, id), decision);
        AnnouncedTold(t.created, t.published, s, Do(s, op));
      }
    case LearnVoice(id, buffered) =>
      if id in s.speakers {
        LearnAnnounces(s, Get(s, id), buffered);
        AnnouncedTold(t.created, t.published, s, Do(s, op));
      }
  }

  lemma OpFits(t: Trace, op: Op)
    requires Sane(t.session) && Fits(t) && (Local(op) || op.Merge?)
    ensures Fits(t.(session := Do(t.session, op)))
  {
    var s := t.session;
    hide Sane, Constraints, LinksOf, StoredOf, Do, DoMerge, CanMerge;
    if Local(op) {
      LocalInPlace(s, op);
      InPlaceIdentities(s, Do(s, op));
    } else {
      MergeOpFits(t, op.a, op.b, op.reason);
      DoIsMerge(s, op);
    }
  }

  lemma DoIsMerge(s: Session, op: Op)
    requires Sane(s) && op.Merge?
    ensures Do(s, op) == DoMerge(s, op.a, op.b, op.reason)
  {
    hide Sane;
  }

  lemma MergeIs(s: Session, a: Id, b: Id, reason: string)
    requires Sane(s)
    ensures CanMerge(s, a, b) ==> a in s.speakers && b in s.speakers && Roots(s, Get(s, a), Get(s, b))
    ensures DoMerge(s, a, b, reason) == if CanMerge(s, a, b) then MergeRoots(s, Get(s, a), Get(s, b), reason) else s
  {
    if CanMerge(s, a, b) {
      CanMergeRoots(s, a, b);
    }
    hide Sane, MergeRoots, CanMerge, Get, Roots;
  }

  lemma MergeOpFits(t: Trace, a: Id, b: Id, reason: string)
    requires Sane(t.session) && Fits(t)
    ensures Fits(t.(session := DoMerge(t.session, a, b, reason)))
  {
    hide Sane, Constraints, CanMerge, Fits, MergeRoots;
    if CanMerge(t.session, a, b) {
      CanMergeRoots(t.session, a, b);
      MergeFits(t, Get(t.session, a), Get(t.session, b), reason);
    } else {
      assert t.(session := t.session) == t;
    }
  }

  lemma NextTold(t: Trace, op: Op)
    requires Sane(t.session) && TellsAll(t.created, t.published, t.session) && Fits(t)
    ensures TellsAll(Next(t, op).created, Next(t, op).published, Next(t, op).session)
  {
    var s, s' := t.session, Do(t.session, op);
    hide Sane, TellsAll, Constraints;
    if op.Create? || op.CreateTemporary? || op.Unattributed? {
      OpRegisters(s, op);
      hide Do;
      RegistersGood(t, s', op.id);
    } else {
      NoNewcomers(s, op);
      SameNewcomers(s, s');
      assert t.created + map[] == t.created;
      if op.Drain? {
        DrainTold(t);
      } else {
        OpTold(t, op);
      }
    }
  }

  lemma NextFits(t: Trace, op: Op)
    requires Sane(t.session) && TellsAll(t.created, t.published, t.session) && Fits(t)
    ensures Fits(Next(t, op))
  {
    var s, s' := t.session, Do(t.session, op);
    hide Sane, TellsAll, Constraints, LinksOf, StoredOf;
    if op.Create? || op.CreateTemporary? || op.Unattributed? {
      OpRegisters(s, op);
      hide Do;
      RegistersGood(t, s', op.id);
    } else if op.CannotLink? {
      hide Fits, Do;
      CannotLinkFits(t, op.a, op.b);
    } else {
      OpFits(t, op);
      hide Do;
    }
  }

  /** Every operation keeps all of it. */
  lemma NextKeepsGood(t: Trace, op: Op)
    requires Good(t)
    ensures Good(Next(t, op))
  {
    DoKeepsSane(t.session, op);
    DoKeepsCapped(t.session, op);
    DoKeepsRecorded(t.session, op);
    NextTold(t, op);
    NextFits(t, op);
    hide Sane, Capped, AllRecorded, TellsAll, Fits, Do;
  }

  function Start(cap: nat, calibrated: bool): Trace {
    Trace(NewSession(cap, calibrated), map[], [], {})
  }

  lemma StartGood(cap: nat, calibrated: bool)
    ensures Good(Start(cap, calibrated))
  {
    assert LinksOf(map[]) == map[] && StoredOf(map[]) == map[] && LabelsOf(map[]) == map[];
    assert Ranked(map[], map[]);
  }

  /** The trace of a whole run. */
  ghost function Run(cap: nat, calibrated: bool, ops: seq<Op>): (t: Trace)
    ensures Good(t)
  {
    if ops == [] then
      StartGood(cap, calibrated);
      Start(cap, calibrated)
    else
      NextKeepsGood(Run(cap, calibrated, ops[..|ops| - 1]), ops[|ops| - 1]);
      Next(Run(cap, calibrated, ops[..|ops| - 1]), ops[|ops| - 1])
  }

  /** Once the pending changes are drained, applying everything published to the labels given at
  creation yields every speaker's label; and the earlier label each change names was the label then. */
  lemma DrainedLabelsRebuild(cap: nat, calibrated: bool, ops: seq<Op>)
    ensures var t := Next(Run(cap, calibrated, ops), Drain);
      && Honest(t.created, t.published)
      && Replay(t.created, t.published) == LabelsOf(t.session.speakers)
      && t.created.Keys == t.session.speakers.Keys
  {
    var t := Run(cap, calibrated, ops);
    hide Run, Honest, Replay, Newcomers, Next, LabelsOf, Sane, Fits, Capped, AllRecorded;
    DrainTold(t);
    NextDrain(t);
    assert t.published + t.session.pending + [] == t.published + t.session.pending;
    HonestKeys(t.created, t.published + t.session.pending);
    LabelsKeys(t.session.speakers);
  }

  lemma LabelsKeys(speakers: Roster)
    ensures LabelsOf(speakers).Keys == speakers.Keys
  {
  }

  lemma NextDrain(t: Trace)
    requires Sane(t.session)
    ensures Next(t, Drain) == t.(session := t.session.(pending := []), published := t.published + t.session.pending)
  {
    hide Sane, Newcomers;
    SameNewcomers(t.session, t.session.(pending := []));
    assert t.created + map[] == t.created;
  }

  lemma {:induction false} HonestKeys(created: Labels, changes: seq<LabelChange>)
    requires Honest(created, changes)
    ensures Replay(created, changes).Keys == created.Keys
  {
    if changes != [] {
      HonestKeys(created, changes[..|changes| - 1]);
    }
  }

  /** Identifiers are never reused or reordered and there is at most one sink, over any continuation. */
  lemma {:induction false} RunOnlyAdds(cap: nat, calibrated: bool, ops: seq<Op>, more: seq<Op>)
    ensures Grows(Run(cap, calibrated, ops).session, Run(cap, calibrated, ops + more).session)
    ensures Listed(Run(cap, calibrated, ops + more).session)
  {
    hide *;
    GoodSane(Run(cap, calibrated, ops + more));
    SaneParts(Run(cap, calibrated, ops + more).session);
    if more == [] {
      assert ops + more == ops;
      GrowsSelf(Run(cap, calibrated, ops).session);
    } else {
      var all, init := ops + more, more[..|more| - 1];
      assert all[..|all| - 1] == ops + init;
      RunOnlyAdds(cap, calibrated, ops, init);
      RunNextSession(cap, calibrated, all);
      DoKeepsSane(Run(cap, calibrated, ops + init).session, all[|all| - 1]);
      GrowsOn(Run(cap, calibrated, ops).session, Run(cap, calibrated, ops + init).session,
              Run(cap, calibrated, all).session);
    }
  }

  lemma GrowsSelf(s: Session)
    ensures Grows(s, s)
  {
  }

  lemma GrowsOn(a: Session, b: Session, c: Session)
    requires Grows(a, b) && Grows(b, c)
    ensures Grows(a, c)
  {
  }

  lemma RunNextSession(cap: nat, calibrated: bool, ops: seq<Op>)
    requires ops != []
    ensures Sane(Run(cap, calibrated, ops[..|ops| - 1]).session)
    ensures Run(cap, calibrated, ops).session == Do(Run(cap, calibrated, ops[..|ops| - 1]).session, ops[|ops| - 1])
  {
    GoodSane(Run(cap, calibrated, ops[..|ops| - 1]));
    NextSession(Run(cap, calibrated, ops[..|ops| - 1]), ops[|ops| - 1]);
    hide Sane, Next, Do, Capped, TellsAll, Fits, AllRecorded;
  }

  // ---- Pairs declared as different people -------------------------------------------------

  /** No declared pair resolves to one speaker. */
  ghost predicate KeptApart(t: Trace) {
    && Forest(LinksOf(t.session.speakers))
    && Pairs(LinksOf(t.session.speakers), t.declared)
    && Apart(LinksOf(t.session.speakers), t.declared)
  }

  /** A merge the guard accepts although something the source stores resolves to the target. */
  ghost predicate Overlooks(s: Session, op: Op)
    requires Sane(s)
  {
    op.Merge? && CanMerge(s, op.a, op.b)
    && Sees(LinksOf(s.speakers), StoredOf(s.speakers), Get(s, op.a), Get(s, op.b))
  }

  lemma RegisterApart(t: Trace, s': Session, id: Id)
    requires Fits(t) && Registers(t.session, s', id)
    ensures KeptApart(t.(session := s')) <==> KeptApart(t)
  {
    if s'.speakers != t.session.speakers {
      RosterPut(t.session.speakers, id, s'.speakers[id]);
      assert id !in LinksOf(t.session.speakers);
      hide LinksOf, Complete, Sound, Apart;
      AddKeepsApart(LinksOf(t.session.speakers), t.declared, id);
    }
  }

  lemma CannotLinkPairApart(t: Trace, a: Id, b: Id)
    requires Sane(t.session) && Fits(t) && Both(t.session, a, b)
    ensures var l := LinksOf(t.session.speakers);
      && LinksOf(DoCannotLink(t.session, a, b).speakers) == l
      && Forest(l) && Pairs(l, t.declared) && Pairs(l, t.declared + {(a, b)})
      && (Apart(l, t.declared + {(a, b)}) <==> Apart(l, t.declared))
  {
    var s := t.session;
    CannotLinkRoster(s, a, b);
    InLinks(s, a);
    InLinks(s, b);
    assert Root(LinksOf(s.speakers), a) != Root(LinksOf(s.speakers), b);
    hide LinksOf, StoredOf, Sane, DoCannotLink, Complete, Sound, Apart, Declare, Forest, Both;
    DeclareKeepsApart(LinksOf(s.speakers), t.declared, a, b);
  }

  lemma CannotLinkApart(t: Trace, a: Id, b: Id)
    requires Sane(t.session) && Fits(t)
    ensures KeptApart(Next(t, CannotLink(a, b))) <==> KeptApart(t)
  {
    NextCannotLink(t, a, b);
    hide LinksOf, Sane, Apart, Forest, Pairs, Next, DoCannotLink, Both, Fits;
    if Both(t.session, a, b) {
      CannotLinkPairApart(t, a, b);
    } else {
      CannotLinkNobody(t.session, a, b);
    }
  }

  lemma MergeApart(t: Trace, src: Id, tgt: Id, reason: string)
    requires Fits(t) && Forest(LinksOf(t.session.speakers)) && Roots(t.session, src, tgt)
    ensures KeptApart(t.(session := MergeRoots(t.session, src, tgt, reason)))
        <==> KeptApart(t) && !Sees(LinksOf(t.session.speakers), StoredOf(t.session.speakers), src, tgt)
  {
    var l, stored := LinksOf(t.session.speakers), StoredOf(t.session.speakers);
    MergeRootsRoster(t.session, src, tgt, reason);
    RootsAreRoots(t.session, src, tgt);
    hide LinksOf, StoredOf, LabelsOf, MergeRoots, Complete, Sound, Sees, Absorb;
    if KeptApart(t) {
      MergeKeepsApartIff(l, stored, t.declared, src, tgt);
    } else {
      JoinedStayJoined(l, t.declared, src, tgt);
    }
  }

  lemma JoinedStayJoined(l: Links, declared: set<(Id, Id)>, src: Id, tgt: Id)
    requires Forest(l) && Pairs(l, declared) && !Apart(l, declared) && TwoRoots(l, src, tgt)
    ensures Forest(l[src := Some(tgt)]) ==> !Apart(l[src := Some(tgt)], declared)
  {
    LinkKeepsForest(l, src, tgt);
    var p :| p in declared && Root(l, p.0) == Root(l, p.1);
    assert Root(l[src := Some(tgt)], p.0) == Root(l[src := Some(tgt)], p.1);
  }

  lemma RegisterOpApart(t: Trace, op: Op)
    requires Sane(t.session) && Fits(t) && (op.Create? || op.CreateTemporary? || op.Unattributed?)
    ensures KeptApart(Next(t, op)) <==> KeptApart(t)
  {
    OpRegisters(t.session, op);
    NextSession(t, op);
    hide Sane, Constraints, LinksOf, KeptApart, Do, Next, Registers, Fits;
    RegisterApart(t, Do(t.session, op), op.id);
    SameApart(Next(t, op), t.(session := Do(t.session, op)));
  }

  lemma MergeOpApart(t: Trace, op: Op)
    requires Sane(t.session) && Fits(t) && op.Merge?
    ensures KeptApart(Next(t, op)) <==> KeptApart(t) && !Overlooks(t.session, op)
  {
    var s := t.session;
    DoIsMerge(s, op);
    if CanMerge(s, op.a, op.b) {
      CanMergeRoots(s, op.a, op.b);
      SaneParts(s);
      hide Sane, Constraints, LinksOf, StoredOf, Sees, KeptApart, CanMerge, MergeRoots, Do;
      MergeApart(t, Get(s, op.a), Get(s, op.b), op.reason);
      SameApart(Next(t, op), t.(session := Do(s, op)));
    } else {
      hide Sane, LinksOf, KeptApart, Do, CanMerge;
      SameApart(Next(t, op), t);
    }
  }

  lemma LocalOpApart(t: Trace, op: Op)
    requires Sane(t.session) && Local(op)
    ensures KeptApart(Next(t, op)) <==> KeptApart(t)
  {
    LocalInPlace(t.session, op);
    hide Do, Sane, LinksOf, StoredOf, KeptApart, SameShape;
    InPlaceIdentities(t.session, Do(t.session, op));
    SameApart(Next(t, op), t);
  }

  /** One operation keeps the declared pairs apart exactly when it is not an overlooked merge. */
  lemma NextApartIff(t: Trace, op: Op)
    requires Good(t)
    ensures KeptApart(Next(t, op)) <==> KeptApart(t) && !Overlooks(t.session, op)
  {
    hide Sane, TellsAll, Capped, AllRecorded, Fits, LinksOf, StoredOf, Sees, KeptApart, CanMerge, Next;
    if op.Create? || op.CreateTemporary? || op.Unattributed? {
      RegisterOpApart(t, op);
    } else if op.CannotLink? {
      CannotLinkApart(t, op.a, op.b);
    } else if op.Merge? {
      MergeOpApart(t, op);
    } else {
      LocalOpApart(t, op);
    }
  }

  lemma SameApart(t: Trace, t': Trace)
    requires LinksOf(t.session.speakers) == LinksOf(t'.session.speakers) && t.declared == t'.declared
    ensures KeptApart(t) <==> KeptApart(t')
  {
  }

  /** The `i`-th operation of a run is an overlooked merge. */
  ghost predicate OverlookedAt(cap: nat, calibrated: bool, ops: seq<Op>, i: nat)
    requires i < |ops|
  {
    Overlooks(Run(cap, calibrated, ops[..i]).session, ops[i])
  }

  ghost predicate NoneOverlooked(cap: nat, calibrated: bool, ops: seq<Op>) {
    forall i :: 0 <= i < |ops| ==> !OverlookedAt(cap, calibrated, ops, i)
  }

  lemma NoneOverlookedMore(cap: nat, calibrated: bool, ops: seq<Op>)
    requires ops != []
    ensures NoneOverlooked(cap, calibrated, ops)
       <==> NoneOverlooked(cap, calibrated, ops[..|ops| - 1]) && !OverlookedAt(cap, calibrated, ops, |ops| - 1)
  {
    hide OverlookedAt;
    var init := ops[..|ops| - 1];
    forall i | 0 <= i < |init|
      ensures OverlookedAt(cap, calibrated, ops, i) <==> OverlookedAt(cap, calibrated, init, i)
    {
      OverlookedPrefix(cap, calibrated, ops, i);
    }
  }

  lemma OverlookedPrefix(cap: nat, calibrated: bool, ops: seq<Op>, i: nat)
    requires i < |ops| - 1
    ensures OverlookedAt(cap, calibrated, ops, i) <==> OverlookedAt(cap, calibrated, ops[..|ops| - 1], i)
  {
    hide Run, Overlooks;
    assert ops[..|ops| - 1][..i] == ops[..i];
  }

  /** Over a whole run, no declared pair ends up as one speaker exactly when no merge was overlooked:
  a guard that resolved the stored identities would be enough. */
  lemma {:induction false} RunKeepsApartIff(cap: nat, calibrated: bool, ops: seq<Op>)
    ensures KeptApart(Run(cap, calibrated, ops)) <==> NoneOverlooked(cap, calibrated, ops)
  {
    if ops == [] {
      StartApart(cap, calibrated);
    } else {
      RunKeepsApartIff(cap, calibrated, ops[..|ops| - 1]);
      NoneOverlookedMore(cap, calibrated, ops);
      RunNext(cap, calibrated, ops);
      hide Run, Overlooks, KeptApart, Next, NoneOverlooked, Good;
      NextApartIff(Run(cap, calibrated, ops[..|ops| - 1]), ops[|ops| - 1]);
    }
  }

  lemma RunNext(cap: nat, calibrated: bool, ops: seq<Op>)
    requires ops != []
    ensures Good(Run(cap, calibrated, ops[..|ops| - 1])) && Sane(Run(cap, calibrated, ops[..|ops| - 1]).session)
    ensures Run(cap, calibrated, ops) == Next(Run(cap, calibrated, ops[..|ops| - 1]), ops[|ops| - 1])
    ensures OverlookedAt(cap, calibrated, ops, |ops| - 1)
       <==> Overlooks(Run(cap, calibrated, ops[..|ops| - 1]).session, ops[|ops| - 1])
  {
    hide Sane, Next, Overlooks, Capped, TellsAll, Fits, AllRecorded;
  }

  lemma GoodSane(t: Trace)
    requires Good(t)
    ensures Sane(t.session)
  {
  }

  lemma StartApart(cap: nat, calibrated: bool)
    ensures KeptApart(Start(cap, calibrated))
  {
    StartGood(cap, calibrated);
  }

  // ---- The guard looks one way only, and at raw identities --------------------------------

  /** An active speaker that stores exactly these identities. */
  ghost predicate Holds(s: Session, id: Id, xs: set<Id>) {
    id in s.speakers && s.speakers[id].mergedInto.None? && s.speakers[id].cannotLink == xs
  }

  ghost predicate Under(s: Session, id: Id, root: Id) {
    id in s.speakers && s.speakers[id].mergedInto == Some(root)
  }

  ghost predicate OthersKept(s: Session, s': Session, x: Id, y: Id) {
    forall id :: id in s.speakers && id != x && id != y ==> id in s'.speakers && s'.speakers[id] == s.speakers[id]
  }

  lemma GetOfRoot(s: Session, id: Id)
    requires Sane(s) && id in s.speakers && s.speakers[id].mergedInto.None?
    ensures Get(s, id) == id
  {
  }

  lemma DeclareStep(s: Session, a: Id, b: Id, xs: set<Id>, ys: set<Id>)
    requires Sane(s) && Holds(s, a, xs) && Holds(s, b, ys) && a != b
    ensures var s' := Do(s, CannotLink(a, b));
      Sane(s') && Holds(s', a, xs + {b}) && Holds(s', b, ys + {a}) && OthersKept(s, s', a, b)
  {
    DoKeepsSane(s, CannotLink(a, b));
    GetOfRoot(s, a);
    GetOfRoot(s, b);
    hide Sane, Get;
  }

  lemma GuardStep(s: Session, a: Id, g: Id, xs: set<Id>, ys: set<Id>)
    requires Sane(s) && Holds(s, a, xs) && Holds(s, g, ys) && a != g
    ensures CanMerge(s, a, g) <==> g !in xs
  {
    GetOfRoot(s, a);
    GetOfRoot(s, g);
    hide Sane, Get;
  }

  lemma MergeStep(s: Session, a: Id, g: Id, xs: set<Id>, ys: set<Id>, reason: string)
    requires Sane(s) && Holds(s, a, xs) && Holds(s, g, ys) && a != g && g !in xs
    ensures CanMerge(s, a, g)
    ensures var s' := Do(s, Merge(a, g, reason));
      Sane(s') && Under(s', a, g) && Holds(s', g, ys + xs) && OthersKept(s, s', a, g)
  {
    DoKeepsSane(s, Merge(a, g, reason));
    GuardStep(s, a, g, xs, ys);
    GetOfRoot(s, a);
    GetOfRoot(s, g);
    MergeRootsMade(s, a, g, reason);
    assert xs - {g} == xs;
    hide Sane, Get, CanMerge;
  }

  lemma UnderRoot(s: Session, a: Id, b: Id, root: Id)
    requires Sane(s) && Under(s, a, root) && Under(s, b, root)
    ensures Get(s, a) == Get(s, b)
  {
    assert LinksOf(s.speakers)[a] == Some(root) && LinksOf(s.speakers)[b] == Some(root);
  }

  /** Two speakers declared to be different people both merge into the same third one: the guard asks
  whether the second source stores the target, and it does not; the target, which by then stores the
  second source, would have refused the merge the other way round. */
  lemma OneSidedGuard(s: Session, a: Id, b: Id, g: Id, reason: string)
    requires Sane(s) && Holds(s, a, {}) && Holds(s, b, {}) && Holds(s, g, {}) && a != b && a != g && b != g
    ensures var s1 := Do(s, CannotLink(a, b));
      Sane(s1) && CanMerge(s1, a, g)
      && var s2 := Do(s1, Merge(a, g, reason));
      Sane(s2) && CanMerge(s2, b, g) && !CanMerge(s2, g, b)
      && var s3 := Do(s2, Merge(b, g, reason));
      Sane(s3) && a in s3.speakers && b in s3.speakers && Get(s3, a) == Get(s3, b)
  {
    hide Sane, Do, CanMerge, Get;
    DeclareStep(s, a, b, {}, {});
    var s1 := Do(s, CannotLink(a, b));
    MergeStep(s1, a, g, {} + {b}, {}, reason);
    var s2 := Do(s1, Merge(a, g, reason));
    GuardStep(s2, g, b, {} + ({} + {b}), {} + {a});
    MergeStep(s2, b, g, {} + {a}, {} + ({} + {b}), reason);
    UnderRoot(Do(s2, Merge(b, g, reason)), a, b, g);
  }

  /** Looking at raw identities from both sides would not be enough either: after two merges the two
  targets store the sources and not each other. */
  lemma RawGuard(s: Session, a: Id, b: Id, g: Id, h: Id, reason: string)
    requires Sane(s) && Holds(s, a, {}) && Holds(s, b, {}) && Holds(s, g, {}) && Holds(s, h, {})
    requires a != b && a != g && a != h && b != g && b != h && g != h
    ensures var s1 := Do(s, CannotLink(a, b));
      Sane(s1)
      && var s2 := Do(s1, Merge(a, g, reason));
      Sane(s2)
      && var s3 := Do(s2, Merge(b, h, reason));
      Sane(s3) && CanMerge(s3, g, h) && CanMerge(s3, h, g)
      && var s4 := Do(s3, Merge(g, h, reason));
      Sane(s4) && a in s4.speakers && b in s4.speakers && Get(s4, a) == Get(s4, b)
  {
    hide Sane, Do, CanMerge, Get;
    DeclareStep(s, a, b, {}, {});
    var s1 := Do(s, CannotLink(a, b));
    MergeStep(s1, a, g, {} + {b}, {}, reason);
    var s2 := Do(s1, Merge(a, g, reason));
    MergeStep(s2, b, h, {} + {a}, {}, reason);
    var s3 := Do(s2, Merge(b, h, reason));
    GuardStep(s3, h, g, {} + ({} + {a}), {} + ({} + {b}));
    MergeStep(s3, g, h, {} + ({} + {b}), {} + ({} + {a}), reason);
    UnderTwice(Do(s3, Merge(g, h, reason)), a, b, g, h);
  }

  lemma UnderTwice(s: Session, a: Id, b: Id, g: Id, h: Id)
    requires Sane(s) && Under(s, a, g) && Under(s, g, h) && Under(s, b, h)
    ensures Get(s, a) == Get(s, b)
  {
    assert LinksOf(s.speakers)[a] == Some(g) && LinksOf(s.speakers)[b] == Some(h);
    assert LinksOf(s.speakers)[g] == Some(h);
    assert Root(LinksOf(s.speakers), a) == Root(LinksOf(s.speakers), g) == Root(LinksOf(s.speakers), h);
  }

  lemma RunSnoc(cap: nat, calibrated: bool, ops: seq<Op>, op: Op)
    ensures Sane(Run(cap, calibrated, ops).session)
    ensures Run(cap, calibrated, ops + [op]) == Next(Run(cap, calibrated, ops), op)
    ensures Run(cap, calibrated, ops + [op]).session == Do(Run(cap, calibrated, ops).session, op)
  {
    assert (ops + [op])[..|ops|] == ops;
    RunNext(cap, calibrated, ops + [op]);
    NextSession(Run(cap, calibrated, ops), op);
    hide Next, Do, Sane, Good;
  }

  lemma CreateRegisters(s: Session, id: Id)
    requires id !in s.speakers && |ActiveIds(s)| < s.cap
    ensures DoCreate(s, id, None, None)
         == Register(s.(labels := s.labels + 1), id,
                     NewSpeaker(NewMachine(SESSION_ANONYMOUS), SpeakerLabel(s.labels + 1), None))
  {
    hide ActiveIds;
  }

  lemma RegisterCounted(s: Session, id: Id, sp: Speaker)
    requires Listed(s) && id !in s.speakers && sp.mergedInto.None?
    ensures |ActiveIds(Register(s, id, sp))| == |ActiveIds(s)| + 1
  {
    RegisterActive(s, id, sp, None);
    hide Active, Listed;
  }

  lemma RegisterHolds(s: Session, id: Id, sp: Speaker)
    requires id !in s.speakers && sp.mergedInto.None? && sp.cannotLink == {}
    ensures var s' := Register(s, id, sp);
      s'.cap == s.cap && Holds(s', id, {}) && OthersKept(s, s', id, id) && s'.speakers.Keys == s.speakers.Keys + {id}
  {
  }

  /** What registering one more speaker leaves to the next one. */
  ghost predicate Room(s: Session, taken: set<Id>) {
    Sane(s) && s.speakers.Keys == taken && |ActiveIds(s)| == |taken| && |taken| < s.cap
  }

  lemma CreateStep(s: Session, id: Id, taken: set<Id>)
    requires Room(s, taken) && id !in taken
    ensures var s' := Do(s, Create(id, None, None));
      Sane(s') && s'.cap == s.cap && Holds(s', id, {}) && OthersKept(s, s', id, id)
      && s'.speakers.Keys == taken + {id} && |ActiveIds(s')| == |taken + {id}|
  {
    var s1 := s.(labels := s.labels + 1);
    var sp := NewSpeaker(NewMachine(SESSION_ANONYMOUS), SpeakerLabel(s.labels + 1), None);
    DoKeepsSane(s, Create(id, None, None));
    SaneParts(s1);
    SaneParts(s);
    CreateRegisters(s, id);
    assert sp.mergedInto.None? && sp.cannotLink == {};
    assert ActiveIds(s1) == ActiveIds(s);
    hide Sane, Active, ActiveIds, Listed, Register, NewSpeaker, Holds, OthersKept, DoCreate;
    RegisterCounted(s1, id, sp);
    RegisterHolds(s1, id, sp);
    KeptAs(s1, s, Register(s1, id, sp), id);
  }

  lemma KeptAs(s1: Session, s: Session, s': Session, id: Id)
    requires s1.speakers == s.speakers && OthersKept(s1, s', id, id)
    ensures OthersKept(s, s', id, id)
  {
  }

  function ThreeSpeakers(a: Id, b: Id, g: Id): seq<Op> {
    [] + [Create(a, None, None)] + [Create(b, None, None)] + [Create(g, None, None)]
  }

  lemma StartRoom(cap: nat, calibrated: bool)
    requires cap > 0
    ensures Room(Run(cap, calibrated, []).session, {}) && Run(cap, calibrated, []).session.cap == cap
  {
    StartGood(cap, calibrated);
    hide Sane;
  }

  lemma ThreeSteps(s0: Session, s1: Session, s2: Session, s3: Session, a: Id, b: Id, g: Id)
    requires Room(s0, {}) && s0.cap >= 3 && a != b && a != g && b != g
    requires Sane(s0) && s1 == Do(s0, Create(a, None, None))
    requires Sane(s1) && s2 == Do(s1, Create(b, None, None))
    requires Sane(s2) && s3 == Do(s2, Create(g, None, None))
    ensures Sane(s3) && Holds(s3, a, {}) && Holds(s3, b, {}) && Holds(s3, g, {})
  {
    hide Do, Sane, ActiveIds;
    CreateStep(s0, a, {});
    CreateStep(s1, b, {} + {a});
    CreateStep(s2, g, {} + {a} + {b});
  }

  lemma ThreeCreated(cap: nat, calibrated: bool, a: Id, b: Id, g: Id)
    requires cap >= 3 && a != b && a != g && b != g
    ensures var s := Run(cap, calibrated, ThreeSpeakers(a, b, g)).session;
      Sane(s) && Holds(s, a, {}) && Holds(s, b, {}) && Holds(s, g, {})
  {
    var one, two := [] + [Create(a, None, None)], [] + [Create(a, None, None)] + [Create(b, None, None)];
    StartRoom(cap, calibrated);
    hide Run, Do, Sane, Holds, Room, Next, Good;
    RunSnoc(cap, calibrated, [], Create(a, None, None));
    RunSnoc(cap, calibrated, one, Create(b, None, None));
    RunSnoc(cap, calibrated, two, Create(g, None, None));
    GoodSane(Run(cap, calibrated, two + [Create(g, None, None)]));
    ThreeSteps(Run(cap, calibrated, []).session, Run(cap, calibrated, one).session,
               Run(cap, calibrated, two).session, Run(cap, calibrated, two + [Create(g, None, None)]).session, a, b, g);
  }

  /** A run of six operations after which two speakers declared to be different people are one. */
  lemma GuardFailsOnRun(cap: nat, calibrated: bool, a: Id, b: Id, g: Id, reason: string)
    requires cap >= 3 && a != b && a != g && b != g
    ensures var ops := ThreeSpeakers(a, b, g) + [CannotLink(a, b)] + [Merge(a, g, reason)] + [Merge(b, g, reason)];
      (a, b) in Run(cap, calibrated, ops).declared && !KeptApart(Run(cap, calibrated, ops))
  {
    var start := ThreeSpeakers(a, b, g);
    var ops1 := start + [CannotLink(a, b)];
    var ops2 := ops1 + [Merge(a, g, reason)];
    ThreeCreated(cap, calibrated, a, b, g);
    var t := Run(cap, calibrated, start);
    RunSnoc(cap, calibrated, start, CannotLink(a, b));
    RunSnoc(cap, calibrated, ops1, Merge(a, g, reason));
    RunSnoc(cap, calibrated, ops2, Merge(b, g, reason));
    NextSession(Run(cap, calibrated, ops1), Merge(a, g, reason));
    NextSession(Run(cap, calibrated, ops2), Merge(b, g, reason));
    DeclaredPair(t, a, b);
    OneSidedGuard(t.session, a, b, g, reason);
    hide Run, Do, Next, Sane, Get, CanMerge, Holds, KeptApart;
    var end := Run(cap, calibrated, ops2 + [Merge(b, g, reason)]);
    JoinedNotApart(end, a, b);
  }

  lemma DeclaredPair(t: Trace, a: Id, b: Id)
    requires Sane(t.session) && Holds(t.session, a, {}) && Holds(t.session, b, {}) && a != b
    ensures (a, b) in Next(t, CannotLink(a, b)).declared
  {
    GetOfRoot(t.session, a);
    GetOfRoot(t.session, b);
    NextCannotLink(t, a, b);
    hide Sane, Next, Get;
  }

  lemma JoinedNotApart(t: Trace, a: Id, b: Id)
    requires (a, b) in t.declared && Sane(t.session) && a in t.session.speakers && b in t.session.speakers
    requires Get(t.session, a) == Get(t.session, b)
    ensures !KeptApart(t)
  {
    InLinks(t.session, a);
    InLinks(t.session, b);
    var p := (a, b);
    assert p in t.declared;
  }
}
